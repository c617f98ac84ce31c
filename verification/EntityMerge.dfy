/** kjTreeMergeAddNewAttrsOverwriteExisting: a request is merged into an entity. */
module EntityMerge {
  import opened Sequences
  import opened Kjson
  import opened AttributeMetadata
  import opened MetadataLoop
  import opened PropertiesToMetadata
  import opened AttributeMerge
  import opened Dots
  import opened EntityShape

  // ---- the effect of the smaller steps ----

  lemma EffectOfNew(s: Shape, nm: NameMap, p: KjNode, n: KjNode, name: string)
    requires ShapeOk(s) && nm.Keys == s.kids.Keys && Live(s, p) && n !in s.kids
    ensures p in s.kids && p in Created(s, n).kids && ShapeOk(Added(Created(s, n), p, n))
    ensures Effect(s, nm, Added(Created(s, n), p, n), nm[n := name], {p}, {}, {}, {})
  {
    CreatedOk(s, n);
    CreatedKeys(s, n);
    AddedOk(Created(s, n), p, n);
    AddedKeys(Created(s, n), p, n);
    CreateKeepsFree(s, n);
    AddKeepsFree(Created(s, n), p, n);
    assert p != n;
    hide ShapeOk, Apart, AwayFrom, Distinct;
  }

  lemma EffectOfRemove(s: Shape, nm: NameMap, p: KjNode, j: nat)
    requires ShapeOk(s) && nm.Keys == s.kids.Keys && p in s.kids && j < |s.kids[p]|
    ensures Effect(s, nm, Removed(s, p, j), nm, {p}, {}, {}, {})
  {
    RemovedOk(s, p, j);
    RemovedKeys(s, p, j);
    hide ShapeOk, Apart, Dropped;
  }

  lemma EffectOfAdd(s: Shape, nm: NameMap, p: KjNode, c: KjNode)
    requires ShapeOk(s) && nm.Keys == s.kids.Keys && Live(s, p) && Free(s, c)
    ensures p in s.kids && Effect(s, nm, Added(s, p, c), nm, {p}, {}, {}, {c})
  {
    AddedOk(s, p, c);
    AddedKeys(s, p, c);
    hide ShapeOk, Apart, AwayFrom, Distinct;
  }

  lemma EffectOfRename(s: Shape, nm: NameMap, x: KjNode, renamed: KjNode?)
    requires ShapeOk(s) && nm.Keys == s.kids.Keys && x in s.kids && (renamed != null ==> renamed in s.kids[x])
    ensures Effect(s, nm, s, if renamed == null then nm else nm[renamed := "value"], {}, Below(s, x), {}, {})
  {
    KidsIn(s, x);
    hide ShapeOk, Distinct;
  }

  lemma EffectOfMetadata(s: Shape, nm: NameMap, attr: KjNode, t: Shape, nm': NameMap, md: KjNode?, mdNames: KjNode, added: seq<KjNode>)
    requires ShapeOk(s) && nm.Keys == s.kids.Keys && Ready(s, attr)
    requires Done(s, nm, attr, t, nm', md, mdNames, added) && ShapeOk(t) && nm'.Keys == t.kids.Keys
    ensures attr in s.kids && Effect(s, nm, t, nm', Around(s, attr), Below(s, attr), {}, {})
    ensures LiveKids(t, attr) && attr !in t.parent
  {
    hide *;
    DoneParts(s, nm, attr, t, nm', md, mdNames, added);
    MetadataParents(s, nm, attr, t, md, mdNames, added);
    MetadataLists(s, nm, attr, t, md, mdNames, added);
    MetadataNames(s, nm, attr, nm');
    EffectIs(s, nm, t, nm', Around(s, attr), Below(s, attr));
  }

  lemma EffectIs(s: Shape, nm: NameMap, t: Shape, nm': NameMap, zone: set<KjNode>, some: set<KjNode>)
    requires ShapeOk(t) && nm'.Keys == t.kids.Keys && nm.Keys == s.kids.Keys && t.stale == s.stale
    requires Elsewhere(s, t, zone) && NamesElsewhere(nm, nm', some) && ParentsBut(s, t, {})
    ensures Effect(s, nm, t, nm', zone, some, {}, {})
  {
    hide ShapeOk, Elsewhere, NamesElsewhere, ParentsBut;
  }

  lemma DoneParts(s: Shape, nm: NameMap, attr: KjNode, t: Shape, nm': NameMap, md: KjNode?, mdNames: KjNode, added: seq<KjNode>)
    requires Done(s, nm, attr, t, nm', md, mdNames, added)
    ensures attr in s.kids && (forall k :: k in s.kids[attr] ==> k in nm)
    ensures Moved(s, nm, attr, t, md, mdNames, added)
    ensures forall x :: x in nm ==> x in nm' && Renamed(s, nm, attr, x, nm'[x])
    ensures mdNames in s.kids ==> mdNames in s.kids[attr]
    ensures md != null && md in s.kids ==> md in s.kids[attr]
  {
    hide Moved, Renamed, TopName;
  }

  lemma MetadataNames(s: Shape, nm: NameMap, attr: KjNode, nm': NameMap)
    requires ShapeOk(s) && nm.Keys == s.kids.Keys && attr in s.kids && (forall k :: k in s.kids[attr] ==> k in nm)
    requires forall x :: x in nm ==> x in nm' && Renamed(s, nm, attr, x, nm'[x])
    ensures NamesElsewhere(nm, nm', Below(s, attr))
  {
    KidsIn(s, attr);
    StayingOrMoving(s.kids[attr], nm);
    hide ShapeOk, Staying, Moving, Special, Distinct;
  }

  lemma MetadataLists(s: Shape, nm: NameMap, attr: KjNode, t: Shape, md: KjNode?, mdNames: KjNode, added: seq<KjNode>)
    requires ShapeOk(s) && attr in s.kids && (forall k :: k in s.kids[attr] ==> k in nm) && Ready(s, attr)
    requires Moved(s, nm, attr, t, md, mdNames, added)
    requires mdNames in s.kids ==> mdNames in s.kids[attr]
    requires md != null && md in s.kids ==> md in s.kids[attr]
    ensures Elsewhere(s, t, Around(s, attr)) && LiveKids(t, attr) && attr !in t.parent && t.stale == s.stale
  {
    MetadataLive(s, nm, attr, t, md, mdNames, added);
    hide ShapeOk, Staying, Moving, Special, Ready, KidsBefore, LiveKids;
  }

  lemma MetadataLive(s: Shape, nm: NameMap, attr: KjNode, t: Shape, md: KjNode?, mdNames: KjNode, added: seq<KjNode>)
    requires ShapeOk(s) && attr in s.kids && (forall k :: k in s.kids[attr] ==> k in nm) && Ready(s, attr)
    requires Moved(s, nm, attr, t, md, mdNames, added)
    ensures LiveKids(t, attr)
  {
    StaleKnown(s);
    StayingOrMoving(s.kids[attr], nm);
    hide ShapeOk, Staying, Moving, Special, Distinct, KidsBefore;
    forall k | k in t.kids[attr] ensures Live(t, k) {
      if k in Staying(s.kids[attr], nm) {
        assert Live(s, k);
      }
    }
  }

  lemma MetadataParents(s: Shape, nm: NameMap, attr: KjNode, t: Shape, md: KjNode?, mdNames: KjNode, added: seq<KjNode>)
    requires ShapeOk(s) && ShapeOk(t) && attr in s.kids && (forall k :: k in s.kids[attr] ==> k in nm)
    requires Moved(s, nm, attr, t, md, mdNames, added)
    ensures ParentsBut(s, t, {})
  {
    StayingOrMoving(s.kids[attr], nm);
    hide Staying, Moving, Special, Distinct;
    forall n | n in t.parent && n in s.kids ensures n in s.parent {
      var p := t.parent[n];
      assert n in t.kids[p];
      if p == attr {
        KidsIn(s, attr);
      } else if p in s.kids {
        KidsIn(s, p);
        KidsIn(s, attr);
      } else {
        KidsIn(s, attr);
      }
    }
  }

  // ---- kjSysAttrs ----

  method FindDates(f: Forest, attr: KjNode) returns (creDate: KjNode?, modDate: KjNode?)
    requires f.Valid() && Live(f.shape, attr)
    ensures modDate != null ==> modDate in f.shape.kids[attr] && modDate.name == "modDate"
    ensures creDate != null ==> creDate in f.shape.kids[attr] && creDate.name == "creDate"
    ensures modDate == null ==> forall k :: k in f.shape.kids[attr] ==> k.name != "modDate"
    ensures creDate == null ==> forall k :: k in f.shape.kids[attr] ==> k.name != "creDate"
  {
    hide *;
    f.Start(attr);
    ghost var ks := f.shape.kids[attr];
    creDate, modDate := null, null;
    var node := attr.firstChild;
    ghost var i := 0;
    while node != null
      invariant i <= |ks| && node == if i < |ks| then ks[i] else null
      invariant modDate != null ==> modDate in ks && modDate.name == "modDate"
      invariant creDate != null ==> creDate in ks && creDate.name == "creDate"
      invariant modDate == null ==> forall k :: 0 <= k < i ==> ks[k].name != "modDate"
      invariant creDate == null ==> forall k :: 0 <= k < i ==> ks[k].name != "creDate"
      decreases |ks| - i
    {
      f.Follow(attr, i);
      if node.name == "modDate" {
        modDate := node;
      } else if node.name == "creDate" {
        creDate := node;
      }
      node := node.next;
      i := i + 1;
    }
  }

  /** The attribute gets a new last member. */
  method AddMemberNode(f: Forest, attr: KjNode, name: string, kind: Kind, text: string, number: int) returns (n: KjNode)
    requires f.Valid() && LiveKids(f.shape, attr)
    modifies f`shape, f.shape.kids.Keys`next, attr`firstChild, attr`lastChild
    ensures f.Valid() && fresh(n) && n !in old(f.shape).kids && n.text == text && n.number == number
    ensures f.shape.kids.Keys == old(f.shape.kids.Keys) + {n} && attr in old(f.shape).kids
    ensures f.shape.kids[attr] == old(f.shape).kids[attr] + [n]
    ensures Names(f.shape.kids.Keys) == old(Names(f.shape.kids.Keys))[n := name]
    ensures Effect(old(f.shape), old(Names(f.shape.kids.Keys)), f.shape, Names(f.shape.kids.Keys), {attr}, {}, {}, {})
    ensures LiveKids(f.shape, attr)
  {
    hide *;
    ghost var s, nm := f.shape, Names(f.shape.kids.Keys);
    f.ValidFacts();
    LiveKidsLive(s, attr);
    StaleKnown(s);
    AllNames(s.kids.Keys);
    n := AddNew(f, attr, name, kind, text, number);
    EffectOfNew(s, nm, attr, n, name);
    CreatedKeys(s, n);
    AddedKeys(Created(s, n), attr, n);
    LiveKidsNew(s, attr, n, attr);
  }

  lemma LiveKidsLive(s: Shape, p: KjNode)
    requires LiveKids(s, p)
    ensures Live(s, p) && p in s.kids
  {
  }

  lemma NoEffect(s: Shape, nm: NameMap, zone: set<KjNode>)
    requires ShapeOk(s) && nm.Keys == s.kids.Keys
    ensures Effect(s, nm, s, nm, zone, {}, {}, {})
  {
    hide ShapeOk;
  }

  lemma EffectTwice(s: Shape, nm: NameMap, t: Shape, nm': NameMap, u: Shape, nm'': NameMap, zone: set<KjNode>)
    requires Effect(s, nm, t, nm', zone, {}, {}, {}) && Effect(t, nm', u, nm'', zone, {}, {}, {})
    ensures Effect(s, nm, u, nm'', zone, {}, {}, {})
  {
    hide Effect;
    EffectThen(s, nm, t, nm', u, nm'', zone, {}, {}, {}, zone, {}, {}, {});
    var none: set<KjNode> := {};
    assert zone + zone == zone && none + none == none;
  }

  /** A date of the attribute is there already, or is added at the end. */
  method EnsureDate(f: Forest, attr: KjNode, name: string, date0: KjNode?, now: int) returns (date: KjNode)
    requires f.Valid() && LiveKids(f.shape, attr) && attr in f.shape.kids
    requires date0 != null ==> date0 in f.shape.kids[attr] && date0.name == name
    modifies f`shape, f.shape.kids.Keys`next, attr`firstChild, attr`lastChild
    ensures f.Valid() && old(f.shape.kids.Keys) <= f.shape.kids.Keys && fresh(f.shape.kids.Keys - old(f.shape.kids.Keys))
    ensures Effect(old(f.shape), old(Names(f.shape.kids.Keys)), f.shape, Names(f.shape.kids.Keys), {attr}, {}, {}, {})
    ensures LiveKids(f.shape, attr) && attr in f.shape.kids
    ensures f.shape.kids[attr] == old(f.shape).kids[attr] + (if date0 == null then [date] else [])
    ensures date in f.shape.kids[attr] && date in f.shape.kids && date.name == name
    ensures if date0 == null then fresh(date) && date.number == now else date == date0
  {
    hide *;
    f.ValidFacts();
    AllNames(f.shape.kids.Keys);
    KidsIn(f.shape, attr);
    if date0 == null {
      date := AddMemberNode(f, attr, name, KjInt, "", now);
      assert f.shape.kids[attr][|f.shape.kids[attr]| - 1] == date;
      NameOf(date, f.shape.kids.Keys);
    } else {
      NoEffect(f.shape, Names(f.shape.kids.Keys), {attr});
      date := date0;
    }
  }

  method SetDate(f: Forest, date: KjNode, now: int)
    requires f.Valid()
    modifies date`number
    ensures f.Valid() && Names(f.shape.kids.Keys) == old(Names(f.shape.kids.Keys)) && date.number == now
  {
    hide *;
    date.number := now;
  }

  lemma AttrOkFrom(s: Shape, nm: NameMap, attr: KjNode, k: KjNode)
    requires LiveKids(s, attr) && attr in s.kids && k in s.kids[attr] && k in nm && nm[k] == "modDate"
    ensures AttrOk(s, nm, attr)
  {
  }

  /** The members after kjSysAttrs: a creation date and a modification date are added where there was none. */
  ghost predicate Dated(ks: seq<KjNode>, nm: NameMap, ks': seq<KjNode>, creDate: KjNode, modDate: KjNode) {
    && creDate in ks' && modDate in ks'
    && ks' == ks + (if NamedBy(ks, nm, "creDate") then [] else [creDate]) + (if NamedBy(ks, nm, "modDate") then [] else [modDate])
  }

  /** The dates that kjSysAttrs finds or adds. */
  method FindOrAddDates(f: Forest, attr: KjNode, now: int) returns (creDate: KjNode, modDate: KjNode)
    requires f.Valid() && LiveKids(f.shape, attr) && attr in f.shape.kids
    modifies f`shape, f.shape.kids.Keys`next, attr`firstChild, attr`lastChild
    ensures f.Valid() && old(f.shape.kids.Keys) <= f.shape.kids.Keys && fresh(f.shape.kids.Keys - old(f.shape.kids.Keys))
    ensures Effect(old(f.shape), old(Names(f.shape.kids.Keys)), f.shape, Names(f.shape.kids.Keys), {attr}, {}, {}, {})
    ensures AttrOk(f.shape, Names(f.shape.kids.Keys), attr) && attr in f.shape.kids && modDate in f.shape.kids
    ensures Dated(old(f.shape).kids[attr], old(Names(f.shape.kids.Keys)), f.shape.kids[attr], creDate, modDate)
    ensures creDate.name == "creDate" && modDate.name == "modDate"
    ensures !NamedBy(old(f.shape).kids[attr], old(Names(f.shape.kids.Keys)), "creDate") ==> creDate.number == now
  {
    hide *;
    ghost var s, nm := f.shape, Names(f.shape.kids.Keys);
    LiveKidsLive(s, attr);
    f.ValidFacts();
    AllNames(s.kids.Keys);
    KidsIn(s, attr);
    var cre0, mod0 := FindDates(f, attr);
    NamedIff(s.kids[attr], nm, "creDate", cre0);
    NamedIff(s.kids[attr], nm, "modDate", mod0);
    creDate, modDate := EnsureDates(f, attr, cre0, mod0, now);
    DatedIs(s.kids[attr], nm, f.shape.kids[attr], creDate, modDate);
    NameOf(modDate, f.shape.kids.Keys);
    AttrOkFrom(f.shape, Names(f.shape.kids.Keys), attr, modDate);
  }

  /** kjSysAttrs: the attribute has a creation date and a modification date, and the latter is now. */
  method SysAttrs(f: Forest, attr: KjNode, now: int) returns (ghost creDate: KjNode, ghost modDate: KjNode)
    requires f.Valid() && LiveKids(f.shape, attr) && attr in f.shape.kids
    modifies f`shape, f.shape.kids.Keys`next, attr`firstChild, attr`lastChild, f.shape.kids.Keys`number
    ensures f.Valid() && old(f.shape.kids.Keys) <= f.shape.kids.Keys && fresh(f.shape.kids.Keys - old(f.shape.kids.Keys))
    ensures Effect(old(f.shape), old(Names(f.shape.kids.Keys)), f.shape, Names(f.shape.kids.Keys), {attr}, {}, {}, {})
    ensures AttrOk(f.shape, Names(f.shape.kids.Keys), attr) && attr in f.shape.kids
    ensures Dated(old(f.shape).kids[attr], old(Names(f.shape.kids.Keys)), f.shape.kids[attr], creDate, modDate)
    ensures creDate.name == "creDate" && modDate.name == "modDate" && modDate.number == now
    ensures !NamedBy(old(f.shape).kids[attr], old(Names(f.shape.kids.Keys)), "creDate") ==> creDate.number == now
    ensures forall n :: n in old(f.shape.kids.Keys) && n != modDate ==> n.number == old(n.number)
  {
    hide *;
    var cre, mod := FindOrAddDates(f, attr, now);
    creDate, modDate := cre, mod;
    SetDate(f, mod, now);
  }

  method EnsureDates(f: Forest, attr: KjNode, cre0: KjNode?, mod0: KjNode?, now: int) returns (cre: KjNode, mod: KjNode)
    requires f.Valid() && LiveKids(f.shape, attr) && attr in f.shape.kids
    requires cre0 != null ==> cre0 in f.shape.kids[attr] && cre0.name == "creDate"
    requires mod0 != null ==> mod0 in f.shape.kids[attr] && mod0.name == "modDate"
    modifies f`shape, f.shape.kids.Keys`next, attr`firstChild, attr`lastChild
    ensures f.Valid() && old(f.shape.kids.Keys) <= f.shape.kids.Keys && fresh(f.shape.kids.Keys - old(f.shape.kids.Keys))
    ensures Effect(old(f.shape), old(Names(f.shape.kids.Keys)), f.shape, Names(f.shape.kids.Keys), {attr}, {}, {}, {})
    ensures LiveKids(f.shape, attr) && attr in f.shape.kids && mod in f.shape.kids
    ensures (if cre0 == null then cre.number == now else cre == cre0) && (mod0 != null ==> mod == mod0)
    ensures f.shape.kids[attr] == old(f.shape).kids[attr] + (if cre0 == null then [cre] else []) + (if mod0 == null then [mod] else [])
    ensures cre in f.shape.kids[attr] && mod in f.shape.kids[attr] && cre.name == "creDate" && mod.name == "modDate"
  {
    hide *;
    ghost var s, nm := f.shape, Names(f.shape.kids.Keys);
    cre := EnsureDate(f, attr, "creDate", cre0, now);
    ghost var s1, nm1 := f.shape, Names(f.shape.kids.Keys);
    mod := EnsureDate(f, attr, "modDate", mod0, now);
    EffectTwice(s, nm, s1, nm1, f.shape, Names(f.shape.kids.Keys), {attr});
    NewInTwoSteps(s.kids.Keys, s1.kids.Keys, f.shape.kids.Keys);
  }

  lemma NamedIff(ks: seq<KjNode>, nm: NameMap, name: string, k: KjNode?)
    requires k != null ==> k in ks && k in nm && nm[k] == name
    requires k == null ==> forall n :: n in ks ==> n in nm && nm[n] != name
    ensures NamedBy(ks, nm, name) <==> k != null
  {
  }

  lemma DatedIs(ks: seq<KjNode>, nm: NameMap, ks': seq<KjNode>, cre: KjNode, mod: KjNode)
    requires cre in ks' && mod in ks'
    requires ks' == ks + (if NamedBy(ks, nm, "creDate") then [] else [cre]) + (if NamedBy(ks, nm, "modDate") then [] else [mod])
    ensures Dated(ks, nm, ks', cre, mod)
  {
  }

  lemma NewInTwoSteps(a: set<KjNode>, b: set<KjNode>, c: set<KjNode>)
    requires a <= b <= c
    ensures c - a == (c - b) + (b - a)
  {
  }

  // ---- a new attribute ----

  /** What is known when attribute x of the request is to be added to the entity. */
  ghost predicate CanAdd(e: Entity, s: Shape, nm: NameMap, x: KjNode, j: nat) {
    && EntityOk(e, s) && nm.Keys == s.kids.Keys && LiveKids(s, x)
    && e.mods in s.kids && j < |s.kids[e.mods]| && s.kids[e.mods][j] == x
  }

  lemma CanAddFacts(e: Entity, s: Shape, nm: NameMap, x: KjNode, j: nat)
    requires CanAdd(e, s, nm, x, j)
    ensures ShapeOk(s) && nm.Keys == s.kids.Keys && LiveKids(s, x) && x in s.kids && x in s.parent
    ensures Live(s, e.mods) && e.mods in s.kids && j < |s.kids[e.mods]| && s.kids[e.mods][j] == x
    ensures Live(s, e.attrs) && e.attrs in s.kids && Live(s, e.attrNames) && e.attrNames in s.kids
    ensures e.mods !in Around(s, x) && e.attrs !in Around(s, x) && e.attrNames !in Around(s, x)
    ensures e.mods != e.attrs && e.mods != e.attrNames && e.attrs != e.attrNames
    ensures x !in Below(s, x)
  {
    assert x in s.kids[e.mods];
    EntityApart(e, s, x);
    KidsIn(s, e.mods);
    KidsIn(s, e.source);
    hide ShapeOk, Distinct;
  }

  /** Removing x from the request makes it ready for the metadata loop. */
  lemma ReadyRemoved(s: Shape, p: KjNode, j: nat, x: KjNode)
    requires ShapeOk(s) && p in s.kids && j < |s.kids[p]| && s.kids[p][j] == x && LiveKids(s, x) && x != p && x in s.kids
    ensures var t := Removed(s, p, j);
      && ShapeOk(t) && Ready(t, x) && t.kids[x] == s.kids[x] && t.kids.Keys == s.kids.Keys
      && Around(t, x) == Around(s, x) && Below(t, x) <= Below(s, x)
  {
    RemovedOk(s, p, j);
    RemovedKeys(s, p, j);
    RemoveKeepsFree(s, p, j);
    hide ShapeOk, Dropped, Apart;
  }

  /** The tree when the properties of x have become metadata, and where they are. */
  datatype Taken = Taken(s: Shape, nm: NameMap, md: KjNode?, mdNames: KjNode, added: seq<KjNode>)

  /** x has left the request, and its properties have become metadata. */
  ghost predicate TakenFrom(s: Shape, nm: NameMap, mods: KjNode, j: nat, x: KjNode, k: Taken) {
    && mods in s.kids && j < |s.kids[mods]| && x in s.kids && (forall c :: c in s.kids[x] ==> c in nm)
    && Done(Removed(s, mods, j), nm, x, k.s, k.nm, k.md, k.mdNames, k.added)
    && TextsOk(k.added, Moving(s.kids[x], nm), nm)
    && Placed(s.kids[x], nm, x, k.s, k.nm, k.md, k.mdNames)
  }

  lemma TakenIs(s: Shape, nm: NameMap, mods: KjNode, j: nat, x: KjNode, k: Taken)
    requires ShapeOk(s) && nm.Keys == s.kids.Keys && mods in s.kids && j < |s.kids[mods]| && x in s.kids && x != mods
    requires Done(Removed(s, mods, j), nm, x, k.s, k.nm, k.md, k.mdNames, k.added)
    requires x in Removed(s, mods, j).kids && (forall c :: c in Removed(s, mods, j).kids[x] ==> c in nm)
    requires TextsOk(k.added, Moving(Removed(s, mods, j).kids[x], nm), nm)
    requires Placed(Removed(s, mods, j).kids[x], nm, x, k.s, k.nm, k.md, k.mdNames)
    ensures TakenFrom(s, nm, mods, j, x, k)
  {
    KidsIn(s, x);
    RemovedKeys(s, mods, j);
    hide Done, TextsOk, Moving, Placed, ShapeOk, Removed, Distinct;
  }

  /** x leaves the request, and its properties become metadata. */
  method Loosen(f: Forest, e: Entity, x: KjNode, ghost j: nat) returns (ghost k: Taken)
    requires f.Valid() && CanAdd(e, f.shape, Names(f.shape.kids.Keys), x, j)
    requires x in f.shape.kids && e.attrs in f.shape.kids && e.mods in f.shape.kids
    modifies f`shape, f.shape.kids.Keys`next, f.shape.kids.Keys`firstChild, f.shape.kids.Keys`lastChild, f.shape.kids.Keys`name
    ensures f.Valid() && old(f.shape.kids.Keys) <= f.shape.kids.Keys && fresh(f.shape.kids.Keys - old(f.shape.kids.Keys))
    ensures Effect(old(f.shape), old(Names(f.shape.kids.Keys)), f.shape, Names(f.shape.kids.Keys),
                   {e.mods} + Around(old(f.shape), x), Below(old(f.shape), x), {}, {})
    ensures f.shape.kids[e.mods] == Dropped(old(f.shape).kids[e.mods], j)
    ensures f.shape.kids[e.attrs] == old(f.shape).kids[e.attrs]
    ensures LiveKids(f.shape, x) && Live(f.shape, e.attrs) && Free(f.shape, x)
    ensures k.s == f.shape && k.nm == Names(f.shape.kids.Keys)
    ensures TakenFrom(old(f.shape), old(Names(f.shape.kids.Keys)), e.mods, j, x, k) && Aside(e, x, k)
  {
    hide *;
    ghost var s0, nm0 := f.shape, Names(f.shape.kids.Keys);
    CanAddFacts(e, s0, nm0, x, j);
    AroundHas(s0, x);
    ReadyRemoved(s0, e.mods, j, x);
    RemovedKeys(s0, e.mods, j);
    EffectOfRemove(s0, nm0, e.mods, j);
    f.ChildRemove(e.mods, x, j);
    ghost var s1 := f.shape;
    ghost var md, mdNames, added := ToMetadata(f, x);
    ghost var s2, nm2 := f.shape, Names(f.shape.kids.Keys);
    f.ValidFacts();
    AllNames(s2.kids.Keys);
    EffectOfMetadata(s1, nm0, x, s2, nm2, md, mdNames, added);
    TakeOverMiddle(e, s0, nm0, x, j, s1, s2, nm2);
    k := Taken(s2, nm2, md, mdNames, added);
    DoneNamed(s1, nm0, x, s2, nm2, md, mdNames, added);
    TakenIs(s0, nm0, e.mods, j, x, k);
    AsideIs(e, s0, nm0, x, j, k);
  }

  /** The lists of metadata are other nodes than those that the next steps change. */
  ghost predicate Aside(e: Entity, x: KjNode, k: Taken) {
    && (k.md != null ==> k.md != x && k.md != e.attrs && k.md != e.attrNames)
    && k.mdNames != x && k.mdNames != e.attrs && k.mdNames != e.attrNames
  }

  lemma AsideIs(e: Entity, s: Shape, nm: NameMap, x: KjNode, j: nat, k: Taken)
    requires CanAdd(e, s, nm, x, j) && x in s.kids && TakenFrom(s, nm, e.mods, j, x, k) && Free(k.s, x)
    requires Effect(s, nm, k.s, k.nm, {e.mods} + Around(s, x), Below(s, x), {}, {})
    ensures Aside(e, x, k)
  {
    hide *;
    SourceApart(e, s, nm, x, j);
    TakenPlaced(s, nm, e.mods, j, x, k);
    PlacedLists(s.kids[x], nm, x, k.s, k.nm, k.md, k.mdNames);
    EffectElsewhere(s, nm, k.s, k.nm, {e.mods} + Around(s, x), Below(s, x), {}, {}, e.source);
    EffectShape(s, nm, k.s, k.nm, {e.mods} + Around(s, x), Below(s, x), {}, {});
    KidsIn(k.s, x);
    KidsIn(k.s, e.source);
    FreeIs(k.s, x);
    AsideFrom(e, x, k);
  }

  lemma AsideFrom(e: Entity, x: KjNode, k: Taken)
    requires x !in k.s.parent && x != e.source && e.attrs in k.s.parent && e.attrNames in k.s.parent
    requires k.s.parent[e.attrs] == e.source && k.s.parent[e.attrNames] == e.source
    requires k.mdNames in k.s.parent && k.s.parent[k.mdNames] == x
    requires k.md != null ==> k.md in k.s.parent && k.s.parent[k.md] == x
    ensures Aside(e, x, k)
  {
  }

  lemma FreeIs(s: Shape, n: KjNode)
    requires Free(s, n)
    ensures n !in s.parent
  {
  }

  lemma SourceApart(e: Entity, s: Shape, nm: NameMap, x: KjNode, j: nat)
    requires CanAdd(e, s, nm, x, j) && x in s.kids
    ensures e.source in s.kids && e.source !in {e.mods} + Around(s, x) && e.source != x
    ensures e.attrs in s.kids[e.source] && e.attrNames in s.kids[e.source]
  {
    EntityApart(e, s, x);
    hide ShapeOk;
  }

  lemma EffectShape(s: Shape, nm: NameMap, t: Shape, nm': NameMap, zone: set<KjNode>, some: set<KjNode>, done: set<KjNode>,
                    adopted: set<KjNode>)
    requires Effect(s, nm, t, nm', zone, some, done, adopted)
    ensures ShapeOk(t) && nm'.Keys == t.kids.Keys
  {
    hide ShapeOk;
  }

  lemma PlacedLists(ks: seq<KjNode>, nm: NameMap, x: KjNode, t: Shape, nm': NameMap, md: KjNode?, mdNames: KjNode)
    requires Placed(ks, nm, x, t, nm', md, mdNames)
    ensures x in t.kids && mdNames in t.kids[x] && (md != null ==> md in t.kids[x])
  {
    hide PlacedOne;
  }

  lemma DoneNamed(s: Shape, nm: NameMap, attr: KjNode, t: Shape, nm': NameMap, md: KjNode?, mdNames: KjNode, added: seq<KjNode>)
    requires Done(s, nm, attr, t, nm', md, mdNames, added)
    ensures attr in s.kids && forall c :: c in s.kids[attr] ==> c in nm
  {
    hide Moved, Renamed, TopName;
  }

  /** The first three steps: x leaves the request, its properties become metadata, and it joins the entity. */
  method TakeOver(f: Forest, e: Entity, x: KjNode, ghost j: nat) returns (ghost k: Taken)
    requires f.Valid() && CanAdd(e, f.shape, Names(f.shape.kids.Keys), x, j)
    requires x in f.shape.kids && e.attrs in f.shape.kids && e.mods in f.shape.kids
    modifies f`shape, f.shape.kids.Keys`next, f.shape.kids.Keys`firstChild, f.shape.kids.Keys`lastChild, f.shape.kids.Keys`name
    ensures f.Valid() && old(f.shape.kids.Keys) <= f.shape.kids.Keys && fresh(f.shape.kids.Keys - old(f.shape.kids.Keys))
    ensures Effect(old(f.shape), old(Names(f.shape.kids.Keys)), f.shape, Names(f.shape.kids.Keys),
                   {e.mods} + Around(old(f.shape), x) + {e.attrs}, Below(old(f.shape), x), {}, {x})
    ensures f.shape.kids[e.mods] == Dropped(old(f.shape).kids[e.mods], j)
    ensures f.shape.kids[e.attrs] == old(f.shape).kids[e.attrs] + [x]
    ensures LiveKids(f.shape, x) && TakenFrom(old(f.shape), old(Names(f.shape.kids.Keys)), e.mods, j, x, k) && Aside(e, x, k)
    ensures Effect(k.s, k.nm, f.shape, Names(f.shape.kids.Keys), {e.attrs}, {}, {}, {x})
    ensures x in k.s.kids && f.shape.kids[x] == k.s.kids[x] && ShapeOk(k.s)
  {
    hide *;
    ghost var s0, nm0 := f.shape, Names(f.shape.kids.Keys);
    CanAddFacts(e, s0, nm0, x, j);
    AroundHas(s0, x);
    k := Loosen(f, e, x, j);
    ghost var s2, nm2 := f.shape, Names(f.shape.kids.Keys);
    f.ValidFacts();
    AllNames(s2.kids.Keys);
    EffectOfAdd(s2, nm2, e.attrs, x);
    AddedKeys(s2, e.attrs, x);
    f.ChildAdd(e.attrs, x);
    TakeOverEnd(e, s0, nm0, x, s2, nm2, f.shape);
  }

  lemma AroundHas(s: Shape, x: KjNode)
    requires x in s.kids
    ensures x in Around(s, x)
  {
  }

  lemma TakeOverMiddle(e: Entity, s0: Shape, nm0: NameMap, x: KjNode, j: nat, s1: Shape, s2: Shape, nm2: NameMap)
    requires CanAdd(e, s0, nm0, x, j) && x in s0.kids && e.mods in s0.kids && j < |s0.kids[e.mods]|
    requires s1 == Removed(s0, e.mods, j) && x in s1.kids && Around(s1, x) == Around(s0, x) && Below(s1, x) <= Below(s0, x)
    requires Effect(s0, nm0, s1, nm0, {e.mods}, {}, {}, {}) && Effect(s1, nm0, s2, nm2, Around(s1, x), Below(s1, x), {}, {})
    requires LiveKids(s2, x) && x !in s2.parent
    ensures Effect(s0, nm0, s2, nm2, {e.mods} + Around(s0, x), Below(s0, x), {}, {})
    ensures e.mods in s2.kids && s2.kids[e.mods] == Dropped(s0.kids[e.mods], j)
    ensures e.attrs in s2.kids && e.attrs in s0.kids && s2.kids[e.attrs] == s0.kids[e.attrs] && Live(s2, e.attrs) && Free(s2, x)
  {
    CanAddFacts(e, s0, nm0, x, j);
    RemovedKeys(s0, e.mods, j);
    hide CanAdd, Around, Below, Removed, Dropped, ShapeOk;
    assert s2.kids[e.mods] == s1.kids[e.mods];
    hide ParentsBut, NamesElsewhere;
    EffectThen(s0, nm0, s1, nm0, s2, nm2, {e.mods}, {}, {}, {}, Around(s0, x), Below(s1, x), {}, {});
    var none: set<KjNode> := {};
    EffectWider(s0, nm0, s2, nm2, {}, {e.mods} + Around(s0, x), none + Below(s1, x), none + none,
                {e.mods} + Around(s0, x), Below(s0, x), {});
  }

  lemma TakeOverEnd(e: Entity, s0: Shape, nm0: NameMap, x: KjNode, s2: Shape, nm2: NameMap, s3: Shape)
    requires e.attrs in s2.kids && e.mods in s2.kids && x in s0.kids && e.attrs != e.mods && e.attrs != x && x in s2.kids
    requires s3 == Added(s2, e.attrs, x) && LiveKids(s2, x)
    requires Effect(s0, nm0, s2, nm2, {e.mods} + Around(s0, x), Below(s0, x), {}, {})
    requires Effect(s2, nm2, s3, nm2, {e.attrs}, {}, {}, {x})
    ensures Effect(s0, nm0, s3, nm2, {e.mods} + Around(s0, x) + {e.attrs}, Below(s0, x), {}, {x})
    ensures e.mods in s3.kids && s3.kids[e.mods] == s2.kids[e.mods]
    ensures LiveKids(s3, x) && x in s3.kids && s3.kids[x] == s2.kids[x]
  {
    hide Effect, ShapeOk, Around, Below;
    AddedKeys(s2, e.attrs, x);
    AddKeepsFree(s2, e.attrs, x);
    EffectThen(s0, nm0, s2, nm2, s3, nm2, {e.mods} + Around(s0, x), Below(s0, x), {}, {}, {e.attrs}, {}, {}, {x});
    var none: set<KjNode> := {};
    assert Below(s0, x) + none == Below(s0, x) && none + none == none && none + {x} == {x};
  }

  lemma AttrOkGrows(s: Shape, nm: NameMap, t: Shape, nm': NameMap, x: KjNode)
    requires AttrOk(s, nm, x) && LiveKids(t, x) && x in s.kids && x in t.kids && s.kids[x] <= t.kids[x]
    requires Effect(s, nm, t, nm', {x}, {}, {}, {})
    ensures AttrOk(t, nm', x)
  {
    hide ShapeOk, LiveKids;
    var k :| k in s.kids[x] && k in nm && nm[k] == "modDate";
    assert k in t.kids[x];
  }

  /** The nodes added to a new attribute, or found in it. */
  datatype Dates = Dates(creDate: KjNode, modDate: KjNode, mdNames: KjNode)

  /** The members are what they were, with the dates and one more mdNames. */
  ghost predicate Completed(ks: seq<KjNode>, nm: NameMap, ks': seq<KjNode>, d: Dates) {
    ks' != [] && ks'[|ks'| - 1] == d.mdNames && Dated(ks, nm, ks'[..|ks'| - 1], d.creDate, d.modDate)
  }

  lemma CompletedIs(ks: seq<KjNode>, nm: NameMap, ks': seq<KjNode>, d: Dates, ks'': seq<KjNode>)
    requires Dated(ks, nm, ks', d.creDate, d.modDate) && ks'' == ks' + [d.mdNames]
    ensures Completed(ks, nm, ks'', d)
  {
    hide Dated;
    assert ks''[..|ks''| - 1] == ks';
  }

  /** The dates and the mdNames that every attribute in the database has. */
  method Complete(f: Forest, x: KjNode, now: int) returns (ghost dates: Dates)
    requires f.Valid() && LiveKids(f.shape, x) && x in f.shape.kids
    modifies f`shape, f.shape.kids.Keys`next, x`firstChild, x`lastChild, f.shape.kids.Keys`number
    ensures f.Valid() && old(f.shape.kids.Keys) <= f.shape.kids.Keys && fresh(f.shape.kids.Keys - old(f.shape.kids.Keys))
    ensures Effect(old(f.shape), old(Names(f.shape.kids.Keys)), f.shape, Names(f.shape.kids.Keys), {x}, {}, {}, {})
    ensures AttrOk(f.shape, Names(f.shape.kids.Keys), x) && x in f.shape.kids
    ensures Completed(old(f.shape).kids[x], old(Names(f.shape.kids.Keys)), f.shape.kids[x], dates)
    ensures dates.creDate.name == "creDate" && dates.modDate.name == "modDate" && dates.mdNames.name == "mdNames"
    ensures dates.modDate.number == now
    ensures !NamedBy(old(f.shape).kids[x], old(Names(f.shape.kids.Keys)), "creDate") ==> dates.creDate.number == now
    ensures forall n :: n in old(f.shape.kids.Keys) && n != dates.modDate ==> n.number == old(n.number)
  {
    hide *;
    ghost var s, nm := f.shape, Names(f.shape.kids.Keys);
    ghost var creDate, modDate := SysAttrs(f, x, now);
    ghost var s1, nm1 := f.shape, Names(f.shape.kids.Keys);
    AttrOkLive(s1, nm1, x);
    var n := AddMemberNode(f, x, "mdNames", KjArray, "", 0);
    AttrOkGrows(s1, nm1, f.shape, Names(f.shape.kids.Keys), x);
    EffectTwice(s, nm, s1, nm1, f.shape, Names(f.shape.kids.Keys), {x});
    dates := Dates(creDate, modDate, n);
    CompletedIs(s.kids[x], nm, s1.kids[x], dates, f.shape.kids[x]);
    NameOf(n, f.shape.kids.Keys);
  }

  lemma AttrOkLive(s: Shape, nm: NameMap, x: KjNode)
    requires AttrOk(s, nm, x)
    ensures LiveKids(s, x) && HasChild(s, nm, x, "modDate") && x in s.kids
  {
  }

  /** The name of the attribute joins attrNames. */
  method AddName(f: Forest, attrNames: KjNode, text: string, ghost x: KjNode) returns (ghost n: KjNode)
    requires f.Valid() && Live(f.shape, attrNames) && AttrOk(f.shape, Names(f.shape.kids.Keys), x) && x != attrNames && x in f.shape.kids
    modifies f`shape, f.shape.kids.Keys`next, attrNames`firstChild, attrNames`lastChild
    ensures f.Valid() && f.shape.kids.Keys == old(f.shape.kids.Keys) + {n} && fresh(n) && n !in old(f.shape).kids && n.text == text
    ensures attrNames in old(f.shape).kids && f.shape.kids[attrNames] == old(f.shape).kids[attrNames] + [n]
    ensures Effect(old(f.shape), old(Names(f.shape.kids.Keys)), f.shape, Names(f.shape.kids.Keys), {attrNames}, {}, {}, {})
    ensures AttrOk(f.shape, Names(f.shape.kids.Keys), x)
  {
    hide *;
    ghost var s, nm := f.shape, Names(f.shape.kids.Keys);
    f.ValidFacts();
    f.Start(attrNames);
    AllNames(s.kids.Keys);
    n := AddNew(f, attrNames, "", KjString, text, 0);
    EffectOfNew(s, nm, attrNames, n, "");
    CreatedKeys(s, n);
    AddedKeys(Created(s, n), attrNames, n);
    AttrKept(s, nm, f.shape, Names(f.shape.kids.Keys), {attrNames}, {}, {}, {}, x);
  }

  ghost function AddZone(e: Entity, s: Shape, x: KjNode): set<KjNode>
    requires x in s.kids
  {
    {e.mods, e.attrs, e.attrNames} + Around(s, x)
  }

  /** x is in the entity, with everything an attribute has there. */
  method Adopt(f: Forest, e: Entity, x: KjNode, now: int, ghost j: nat) returns (ghost k: Taken, ghost dates: Dates)
    requires f.Valid() && CanAdd(e, f.shape, Names(f.shape.kids.Keys), x, j)
    requires x in f.shape.kids && e.attrs in f.shape.kids && e.mods in f.shape.kids && e.attrNames in f.shape.kids
    modifies f`shape, f.shape.kids.Keys`next, f.shape.kids.Keys`firstChild, f.shape.kids.Keys`lastChild,
             f.shape.kids.Keys`name, f.shape.kids.Keys`number
    ensures f.Valid() && old(f.shape.kids.Keys) <= f.shape.kids.Keys && fresh(f.shape.kids.Keys - old(f.shape.kids.Keys))
    ensures Effect(old(f.shape), old(Names(f.shape.kids.Keys)), f.shape, Names(f.shape.kids.Keys),
                   {e.mods} + Around(old(f.shape), x) + {e.attrs}, Below(old(f.shape), x), {}, {x})
    ensures f.shape.kids[e.mods] == Dropped(old(f.shape).kids[e.mods], j)
    ensures f.shape.kids[e.attrs] == old(f.shape).kids[e.attrs] + [x]
    ensures f.shape.kids[e.attrNames] == old(f.shape).kids[e.attrNames] && Live(f.shape, e.attrNames)
    ensures x.name == old(x.name)
    ensures AttrOk(f.shape, Names(f.shape.kids.Keys), x) && x in f.shape.kids
    ensures TakenFrom(old(f.shape), old(Names(f.shape.kids.Keys)), e.mods, j, x, k) && Aside(e, x, k)
    ensures Effect(k.s, k.nm, f.shape, Names(f.shape.kids.Keys), {e.attrs, x}, {}, {}, {x})
    ensures x in k.s.kids && Completed(k.s.kids[x], k.nm, f.shape.kids[x], dates)
    ensures dates.creDate.name == "creDate" && dates.modDate.name == "modDate" && dates.mdNames.name == "mdNames"
    ensures dates.modDate.number == now && (!NamedBy(k.s.kids[x], k.nm, "creDate") ==> dates.creDate.number == now)
    ensures forall n :: n in old(f.shape.kids.Keys) && n != dates.modDate ==> n.number == old(n.number)
  {
    hide *;
    ghost var s0, nm0 := f.shape, Names(f.shape.kids.Keys);
    CanAddFacts(e, s0, nm0, x, j);
    NameOf(x, s0.kids.Keys);
    k := TakeOver(f, e, x, j);
    ghost var s1, nm1 := f.shape, Names(f.shape.kids.Keys);
    LiveKidsLive(s1, x);
    dates := Complete(f, x, now);
    ghost var s2, nm2 := f.shape, Names(f.shape.kids.Keys);
    AddBeforeName(e, s0, nm0, x, s1, nm1, s2, nm2);
    NameOf(x, s2.kids.Keys);
    NewInTwoSteps(s0.kids.Keys, s1.kids.Keys, s2.kids.Keys);
    AfterTaking(k, e.attrs, x, s1, nm1, s2, nm2);
    CompletedSame(k, x, s1, nm1, s2.kids[x], dates, {e.attrs}, {x});
  }

  lemma AfterTaking(k: Taken, attrs: KjNode, x: KjNode, s1: Shape, nm1: NameMap, s2: Shape, nm2: NameMap)
    requires Effect(k.s, k.nm, s1, nm1, {attrs}, {}, {}, {x}) && Effect(s1, nm1, s2, nm2, {x}, {}, {}, {})
    ensures Effect(k.s, k.nm, s2, nm2, {attrs, x}, {}, {}, {x})
  {
    hide Effect;
    EffectThen(k.s, k.nm, s1, nm1, s2, nm2, {attrs}, {}, {}, {x}, {x}, {}, {}, {});
    var none: set<KjNode> := {};
    assert {attrs} + {x} == {attrs, x} && none + none == none && {x} + none == {x};
  }

  /** Whether a date was there does not depend on which of the two name maps is asked. */
  lemma CompletedSame(k: Taken, x: KjNode, s1: Shape, nm1: NameMap, ks': seq<KjNode>, d: Dates, zone: set<KjNode>, adopted: set<KjNode>)
    requires Effect(k.s, k.nm, s1, nm1, zone, {}, {}, adopted) && x in k.s.kids && ShapeOk(k.s)
    requires x in s1.kids && s1.kids[x] == k.s.kids[x] && Completed(s1.kids[x], nm1, ks', d)
    ensures Completed(k.s.kids[x], k.nm, ks', d)
    ensures NamedBy(s1.kids[x], nm1, "creDate") <==> NamedBy(k.s.kids[x], k.nm, "creDate")
  {
    KidsIn(k.s, x);
    var ks := k.s.kids[x];
    assert forall c :: c in ks ==> c in k.nm && c in nm1 && nm1[c] == k.nm[c];
    assert forall name :: NamedBy(ks, nm1, name) <==> NamedBy(ks, k.nm, name);
    hide ShapeOk, Effect, NamedBy, Distinct;
  }

  /** What is known of the attribute x that was added: from the metadata loop, the dates, and what it had before. */
  ghost predicate AddedAttribute(e: Entity, s: Shape, nm: NameMap, j: nat, x: KjNode, k: Taken, d: Dates, t: Shape, nm': NameMap) {
    && TakenFrom(s, nm, e.mods, j, x, k) && x in k.s.kids && x in t.kids
    && Effect(k.s, k.nm, t, nm', {e.attrs, x, e.attrNames}, {}, {}, {x})
    && Completed(k.s.kids[x], k.nm, t.kids[x], d)
    && x in s.kids && Placed(s.kids[x], nm, x, t, nm', k.md, k.mdNames)
  }

  /** An attribute of the request whose name is new joins the entity. */
  method AddAttribute(f: Forest, e: Entity, x: KjNode, now: int, ghost j: nat) returns (ghost n: KjNode, ghost k: Taken, ghost dates: Dates)
    requires f.Valid() && CanAdd(e, f.shape, Names(f.shape.kids.Keys), x, j)
    requires x in f.shape.kids && e.attrs in f.shape.kids && e.mods in f.shape.kids && e.attrNames in f.shape.kids
    modifies f`shape, f.shape.kids.Keys`next, f.shape.kids.Keys`firstChild, f.shape.kids.Keys`lastChild,
             f.shape.kids.Keys`name, f.shape.kids.Keys`number
    ensures f.Valid() && old(f.shape.kids.Keys) <= f.shape.kids.Keys && fresh(f.shape.kids.Keys - old(f.shape.kids.Keys))
    ensures Effect(old(f.shape), old(Names(f.shape.kids.Keys)), f.shape, Names(f.shape.kids.Keys),
                   AddZone(e, old(f.shape), x), Below(old(f.shape), x), {}, {})
    ensures f.shape.kids[e.mods] == Dropped(old(f.shape).kids[e.mods], j)
    ensures f.shape.kids[e.attrs] == old(f.shape).kids[e.attrs] + [x]
    ensures f.shape.kids[e.attrNames] == old(f.shape).kids[e.attrNames] + [n] && n !in old(f.shape).kids && n in f.shape.kids
    ensures n.text == EqForDot(old(x.name))
    ensures AttrOk(f.shape, Names(f.shape.kids.Keys), x)
    ensures AddedAttribute(e, old(f.shape), old(Names(f.shape.kids.Keys)), j, x, k, dates, f.shape, Names(f.shape.kids.Keys))
    ensures dates.creDate.name == "creDate" && dates.modDate.name == "modDate" && dates.mdNames.name == "mdNames"
    ensures dates.modDate.number == now && (!NamedBy(k.s.kids[x], k.nm, "creDate") ==> dates.creDate.number == now)
    ensures forall n :: n in old(f.shape.kids.Keys) && n != dates.modDate ==> n.number == old(n.number)
  {
    hide *;
    ghost var s0, nm0 := f.shape, Names(f.shape.kids.Keys);
    CanAddFacts(e, s0, nm0, x, j);
    AroundHas(s0, x);
    k, dates := Adopt(f, e, x, now, j);
    ghost var s2, nm2 := f.shape, Names(f.shape.kids.Keys);
    AttrOkLive(s2, nm2, x);
    n := AddName(f, e.attrNames, EqForDot(x.name), x);
    AddAll(e, s0, nm0, x, s2, nm2, f.shape, Names(f.shape.kids.Keys));
    AddedAttributeIs(e, s0, nm0, j, x, k, dates, s2, nm2, f.shape, Names(f.shape.kids.Keys));
  }

  lemma AddedAttributeIs(e: Entity, s: Shape, nm: NameMap, j: nat, x: KjNode, k: Taken, d: Dates, s2: Shape, nm2: NameMap, t: Shape, nm': NameMap)
    requires TakenFrom(s, nm, e.mods, j, x, k) && x in k.s.kids && x in s2.kids && x != e.attrNames
    requires Effect(k.s, k.nm, s2, nm2, {e.attrs, x}, {}, {}, {x}) && Effect(s2, nm2, t, nm', {e.attrNames}, {}, {}, {})
    requires Completed(k.s.kids[x], k.nm, s2.kids[x], d) && Aside(e, x, k)
    ensures AddedAttribute(e, s, nm, j, x, k, d, t, nm')
  {
    hide *;
    EffectElsewhere(s2, nm2, t, nm', {e.attrNames}, {}, {}, {}, x);
    assert x in t.kids && t.kids[x] == s2.kids[x];
    EffectThen(k.s, k.nm, s2, nm2, t, nm', {e.attrs, x}, {}, {}, {x}, {e.attrNames}, {}, {}, {});
    var none: set<KjNode> := {};
    assert {e.attrs, x} + {e.attrNames} == {e.attrs, x, e.attrNames} && none + none == none && {x} + none == {x};
    TakenPlaced(s, nm, e.mods, j, x, k);
    StillPlaced(e, s.kids[x], nm, x, k, d, t, nm');
    AddedIs(e, s, nm, j, x, k, d, t, nm');
  }

  lemma EffectElsewhere(s: Shape, nm: NameMap, t: Shape, nm': NameMap, zone: set<KjNode>, some: set<KjNode>, done: set<KjNode>,
                        adopted: set<KjNode>, n: KjNode)
    requires Effect(s, nm, t, nm', zone, some, done, adopted) && n in s.kids && n !in zone
    ensures n in t.kids && t.kids[n] == s.kids[n]
  {
    hide ShapeOk, ParentsBut, NamesElsewhere;
  }

  lemma TakenPlaced(s: Shape, nm: NameMap, mods: KjNode, j: nat, x: KjNode, k: Taken)
    requires TakenFrom(s, nm, mods, j, x, k)
    ensures x in s.kids && Placed(s.kids[x], nm, x, k.s, k.nm, k.md, k.mdNames)
  {
    hide Done, TextsOk, Moving, Placed;
  }

  lemma AddedIs(e: Entity, s: Shape, nm: NameMap, j: nat, x: KjNode, k: Taken, d: Dates, t: Shape, nm': NameMap)
    requires TakenFrom(s, nm, e.mods, j, x, k) && x in k.s.kids && x in t.kids
    requires Effect(k.s, k.nm, t, nm', {e.attrs, x, e.attrNames}, {}, {}, {x})
    requires Completed(k.s.kids[x], k.nm, t.kids[x], d)
    requires x in s.kids && Placed(s.kids[x], nm, x, t, nm', k.md, k.mdNames)
    ensures AddedAttribute(e, s, nm, j, x, k, d, t, nm')
  {
    hide TakenFrom, Effect, Completed, Placed;
  }

  /** The dates and one more mdNames join the members, and nothing else changes. */
  lemma StillPlaced(e: Entity, ks: seq<KjNode>, nm: NameMap, x: KjNode, k: Taken, d: Dates, t: Shape, nm': NameMap)
    requires Placed(ks, nm, x, k.s, k.nm, k.md, k.mdNames) && Aside(e, x, k) && x in k.s.kids && x in t.kids
    requires Effect(k.s, k.nm, t, nm', {e.attrs, x, e.attrNames}, {}, {}, {x}) && Completed(k.s.kids[x], k.nm, t.kids[x], d)
    ensures Placed(ks, nm, x, t, nm', k.md, k.mdNames)
  {
    hide ShapeOk, ParentsBut, NamedBy, PlacedOne;
    assert forall n :: n in k.nm ==> n in nm' && nm'[n] == k.nm[n];
    CompletedHas(k.s.kids[x], k.nm, t.kids[x], d);
    assert k.mdNames in k.s.kids[x] && k.mdNames in t.kids && t.kids[k.mdNames] == k.s.kids[k.mdNames];
    assert k.md != null && k.md in k.s.kids ==> k.md in t.kids && t.kids[k.md] == k.s.kids[k.md];
    assert ShapeOk(t);
    hide Effect, Completed;
    forall c | c in ks ensures c in nm && PlacedOne(nm, x, t, nm', k.md, k.mdNames, c) {
      StillPlacedOne(nm, x, k.s, k.nm, t, nm', k.md, k.mdNames, c);
    }
  }

  lemma CompletedHas(ks: seq<KjNode>, nm: NameMap, ks': seq<KjNode>, d: Dates)
    requires Completed(ks, nm, ks', d)
    ensures forall c :: c in ks ==> c in ks'
  {
    hide NamedBy;
    assert forall c :: c in ks'[..|ks'| - 1] ==> c in ks';
  }

  lemma StillPlacedOne(nm: NameMap, x: KjNode, s: Shape, nm1: NameMap, t: Shape, nm2: NameMap, md: KjNode?, mdNames: KjNode, c: KjNode)
    requires x in s.kids && x in t.kids && mdNames in s.kids && mdNames in t.kids && c in nm && ShapeOk(t)
    requires PlacedOne(nm, x, s, nm1, md, mdNames, c)
    requires forall n :: n in nm1 ==> n in nm2 && nm2[n] == nm1[n]
    requires forall n :: n in s.kids[x] ==> n in t.kids[x]
    requires t.kids[mdNames] == s.kids[mdNames] && (md != null ==> md != x && (md in s.kids ==> md in t.kids && t.kids[md] == s.kids[md]))
    ensures PlacedOne(nm, x, t, nm2, md, mdNames, c)
  {
    KidsIn(t, x);
    if md != null && md in t.kids {
      KidsIn(t, md);
    }
    hide ShapeOk, Distinct;
  }

  lemma AddBeforeName(e: Entity, s0: Shape, nm0: NameMap, x: KjNode, s1: Shape, nm1: NameMap, s2: Shape, nm2: NameMap)
    requires x in s0.kids && x in s0.parent && x !in Below(s0, x) && Live(s0, e.attrNames)
    requires e.mods !in Around(s0, x) && e.attrs !in Around(s0, x) && e.attrNames !in Around(s0, x)
    requires e.mods != e.attrs && e.mods != e.attrNames && e.attrs != e.attrNames
    requires Effect(s0, nm0, s1, nm1, {e.mods} + Around(s0, x) + {e.attrs}, Below(s0, x), {}, {x}) && e.mods in s1.kids && e.attrs in s1.kids
    requires Effect(s1, nm1, s2, nm2, {x}, {}, {}, {})
    ensures Effect(s0, nm0, s2, nm2, {e.mods} + Around(s0, x) + {e.attrs}, Below(s0, x), {}, {x})
    ensures x in nm0 && x in nm2 && nm2[x] == nm0[x]
    ensures e.mods in s2.kids && s2.kids[e.mods] == s1.kids[e.mods]
    ensures e.attrs in s2.kids && s2.kids[e.attrs] == s1.kids[e.attrs]
    ensures e.attrNames in s0.kids && e.attrNames in s2.kids && s2.kids[e.attrNames] == s0.kids[e.attrNames] && Live(s2, e.attrNames)
  {
    AroundHas(s0, x);
    hide Around, Below, ShapeOk, ParentsBut;
    assert s1.kids[e.attrNames] == s0.kids[e.attrNames];
    assert nm1[x] == nm0[x];
    var none: set<KjNode> := {};
    EffectThen(s0, nm0, s1, nm1, s2, nm2, {e.mods} + Around(s0, x) + {e.attrs}, Below(s0, x), {}, {x}, {x}, {}, {}, {});
    EffectWider(s0, nm0, s2, nm2, none + none, {e.mods} + Around(s0, x) + {e.attrs} + {x}, Below(s0, x) + none, {x} + none,
                {e.mods} + Around(s0, x) + {e.attrs}, Below(s0, x), {x});
    assert none + none == none;
  }

  lemma AddAll(e: Entity, s0: Shape, nm0: NameMap, x: KjNode, s2: Shape, nm2: NameMap, s3: Shape, nm3: NameMap)
    requires x in s0.kids && x in s0.parent && e.attrNames != e.mods && e.attrNames != e.attrs && e.mods in s2.kids && e.attrs in s2.kids
    requires Effect(s0, nm0, s2, nm2, {e.mods} + Around(s0, x) + {e.attrs}, Below(s0, x), {}, {x})
    requires Effect(s2, nm2, s3, nm3, {e.attrNames}, {}, {}, {})
    ensures Effect(s0, nm0, s3, nm3, AddZone(e, s0, x), Below(s0, x), {}, {})
    ensures e.mods in s3.kids && s3.kids[e.mods] == s2.kids[e.mods] && e.attrs in s3.kids && s3.kids[e.attrs] == s2.kids[e.attrs]
  {
    hide Around, Below, ShapeOk, ParentsBut, NamesElsewhere;
    var none: set<KjNode> := {};
    var z := {e.mods} + Around(s0, x) + {e.attrs};
    EffectThen(s0, nm0, s2, nm2, s3, nm3, z, Below(s0, x), {}, {x}, {e.attrNames}, {}, {}, {});
    EffectWider(s0, nm0, s3, nm3, none + none, z + {e.attrNames}, Below(s0, x) + none, {x} + none, AddZone(e, s0, x), Below(s0, x), {});
    assert none + none == none;
  }
}
