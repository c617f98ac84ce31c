/** What becomes of the members of the attributes in a request. */
module EntityRequest {
  import opened Sequences
  import opened Kjson
  import opened AttributeMetadata
  import opened MetadataLoop
  import opened PropertiesToMetadata
  import opened AttributeMerge
  import opened MergeResult
  import opened EntityShape
  import opened EntityMerge
  import opened EntityMergeLoop
  import opened EntityAgreement

  // ---- an attribute of the request waits for its round untouched ----

  /** Attribute a of the request, while x before it has its round. */
  lemma ModHere(g: Goal, st: Stage, i: nat, k: nat)
    requires MergedTo(g, st.s, st.nm, i, st.kept, st.names) && i < k < |Mods(g)|
    ensures EntityOk(g.e, st.s) && g.e.mods in st.s.kids && g.e.attrs in st.s.kids
    ensures var x, a := Mods(g)[i], Mods(g)[k];
      && x in st.s.kids && a in st.s.kids && x in st.s.kids[g.e.mods] && a in st.s.kids[g.e.mods]
      && a != x && a !in st.s.kids[g.e.attrs]
      && a !in Around(st.s, x) && a !in Below(st.s, x) && x !in st.s.kids[a]
      && forall c :: c in st.s.kids[a] ==> c !in Below(st.s, x)
  {
    hide *;
    Here(g, st.s, st.nm, i, st.kept, st.names);
    RestInMods(g, st.s, st.nm, i, st.kept, st.names, k);
    ModApart(g.e, st.s, Mods(g)[i], Mods(g)[k]);
  }

  lemma WaitsRename(g: Goal, o: Stage, st: Stage, i: nat, k: nat, nm: NameMap)
    requires g.e.mods in g.s.kids
    requires MergedTo(g, st.s, st.nm, i, st.kept, st.names) && i < k < |Mods(g)| && Mods(g)[i] in st.s.kids
    requires SameAttribute(o, st.s, st.nm, Mods(g)[k]) && nm == ObjectNamed(st.s, st.nm, Mods(g)[i])
    ensures SameAttribute(o, st.s, nm, Mods(g)[k])
  {
    hide *;
    ModHere(g, st, i, k);
    RenameKeeps(g, st, i, Mods(g)[i]);
    NothingElsewhere(st.s);
    SameUnder(o, st.s, st.nm, st.s, nm, {}, Below(st.s, Mods(g)[i]), Mods(g)[k]);
  }

  lemma WaitsMerge(g: Goal, o: Stage, st: Stage, i: nat, k: nat, r: Round, nm: NameMap, b: Stage)
    requires MergedTo(g, st.s, st.nm, i, st.kept, st.names) && i < k < |Mods(g)| && SameAttribute(o, st.s, nm, Mods(g)[k])
    requires r.Merging? && MergeRound(g.e, Mods(g)[i], st, r, nm, b)
    ensures SameAttribute(o, b.s, b.nm, Mods(g)[k])
  {
    var x, a := Mods(g)[i], Mods(g)[k];
    ModHere(g, st, i, k);
    hide MergedTo, EntityOk, MergedAttribute, SameAttribute, Around, Below, ShapeOk, ParentsBut, Elsewhere, NamesElsewhere;
    MergeZone(g, st.s, st.nm, i, st.kept, st.names, x, r.y);
    forall c | c in st.s.kids[a] ensures c !in Around(st.s, r.y) + {x} && c !in Below(st.s, x) {
      ChildApart(g.e, st.s, r.y, a, c);
    }
    SameUnder(o, st.s, nm, b.s, b.nm, Around(st.s, r.y) + {x}, Below(st.s, x), a);
  }

  lemma WaitsJoin(g: Goal, o: Stage, st: Stage, i: nat, k: nat, r: Round, nm: NameMap, b: Stage)
    requires MergedTo(g, st.s, st.nm, i, st.kept, st.names) && i < k < |Mods(g)| && SameAttribute(o, st.s, nm, Mods(g)[k])
    requires r.Joining? && JoinRound(g.e, Mods(g)[i], st, r, nm, b)
    ensures SameAttribute(o, b.s, b.nm, Mods(g)[k])
  {
    var x, a := Mods(g)[i], Mods(g)[k];
    ModHere(g, st, i, k);
    hide MergedTo, EntityOk, AddedAttribute, SameAttribute, Around, Below, ShapeOk, ParentsBut, Elsewhere, NamesElsewhere, AddZone;
    forall c | c in st.s.kids[a] ensures c !in AddZone(g.e, st.s, x) && c !in Below(st.s, x) {
      ChildApart(g.e, st.s, x, a, c);
      NotInAddZone(g.e, st.s, x, c);
    }
    ModNotInAddZone(g.e, st.s, x, a);
    SameUnder(o, st.s, nm, b.s, b.nm, AddZone(g.e, st.s, x), Below(st.s, x), a);
  }

  lemma WaitsRound(g: Goal, o: Stage, st: Stage, i: nat, k: nat, r: Round, b: Stage)
    requires g.e.mods in g.s.kids
    requires MergedTo(g, st.s, st.nm, i, st.kept, st.names) && i < k < |Mods(g)| && RoundOk(g.e, g.now, Mods(g)[i], st, r, b)
    requires SameAttribute(o, st.s, st.nm, Mods(g)[k])
    ensures SameAttribute(o, b.s, b.nm, Mods(g)[k])
  {
    hide MergedTo, MergeRound, JoinRound, SameAttribute, ObjectNamed, DatesSet;
    if !r.Passed? {
      var nm := ObjectNamed(st.s, st.nm, Mods(g)[i]);
      WaitsRename(g, o, st, i, k, nm);
      if r.Merging? {
        WaitsMerge(g, o, st, i, k, r, nm, b);
      } else {
        WaitsJoin(g, o, st, i, k, r, nm, b);
      }
    }
  }

  lemma WaitsNumbers(g: Goal, o: Stage, st: Stage, i: nat, k: nat, r: Round, b: Stage)
    requires g.e.mods in g.s.kids
    requires MergedTo(g, st.s, st.nm, i, st.kept, st.names) && MergedTo(g, b.s, b.nm, i + 1, b.kept, b.names)
    requires i < k < |Mods(g)| && RoundOk(g.e, g.now, Mods(g)[i], st, r, b) && SameNumbers(o, st.num, Mods(g)[k])
    requires SameAttribute(o, st.s, st.nm, Mods(g)[k]) && SameAttribute(o, b.s, b.nm, Mods(g)[k])
    ensures SameNumbers(o, b.num, Mods(g)[k])
  {
    hide MergedTo, JoinRound, SameAttribute, SameNumbers, ObjectNamed, OnlyNow, EntityOk, Effect, MergedAttribute, Around, Below;
    if !r.Passed? {
      ModHere(g, st, i, k);
      StageShape(g, st, i);
      StageShape(g, b, i + 1);
      NumbersApart(o, st, b, WorkedOn(r, Mods(g)[i]), g.now, Mods(g)[k]);
    }
  }

  lemma WaitsStart(g: Goal, o: Stage, k: nat)
    requires MergedTo(g, o.s, o.nm, 0, o.kept, o.names) && k < |Mods(g)| && o.num.Keys == o.s.kids.Keys && o.s == g.s
    ensures SameAttribute(o, o.s, o.nm, Mods(g)[k]) && SameNumbers(o, o.num, Mods(g)[k])
  {
    EntityParts(g.e, o.s);
    assert Mods(g)[k] in Mods(g);
    KidsIn(o.s, Mods(g)[k]);
    hide NewOnes, EntityOk, AttrOk, LiveKids, DotForms, EntityMergeLoop.SameNames, ShapeOk, Distinct;
  }

  lemma {:induction false} Waits(g: Goal, stages: seq<Stage>, rounds: seq<Round>, i: nat, k: nat)
    requires Log(g, stages, rounds) && i < |stages| && i <= k < |Mods(g)|
    ensures SameAttribute(stages[0], stages[i].s, stages[i].nm, Mods(g)[k]) && SameNumbers(stages[0], stages[i].num, Mods(g)[k])
  {
    hide *;
    LogLast(g, stages, rounds);
    LogStage(g, stages, rounds, i);
    if i == 0 {
      LogBegin(g, stages, rounds);
      WaitsStart(g, stages[0], k);
    } else {
      Waits(g, stages, rounds, i - 1, k);
      LogAt(g, stages, rounds, i - 1);
      WaitsRound(g, stages[0], stages[i - 1], i - 1, k, rounds[i - 1], stages[i]);
      WaitsNumbers(g, stages[0], stages[i - 1], i - 1, k, rounds[i - 1], stages[i]);
    }
  }

  lemma LogBegin(g: Goal, stages: seq<Stage>, rounds: seq<Round>)
    requires Log(g, stages, rounds)
    ensures stages[0] == Stage(g.s, g.nm, g.num, [], [])
  {
    hide StagesOk, RoundsOk, Usable;
  }

  // ---- a new attribute ----

  /** Member c of a new attribute x at the end: one with one of seven names is a member as before, with what hangs below
      it, and with "object" called "value"; any other is in md, and its name in mdNames. */
  ghost predicate Stands(g: Goal, x: KjNode, c: KjNode, s: Shape, nm: NameMap, num: NumberMap)
    requires x in s.kids
  {
    && c in g.nm && c in g.num && c in g.s.kids
    && if g.nm[c] in ["type", "value", "object", "creDate", "modDate", "md", "mdNames"]
       then
         && c in s.kids[x] && c in nm && nm[c] == (if g.nm[c] == "object" then "value" else g.nm[c])
         && (g.nm[c] != "md" && g.nm[c] != "mdNames" ==> c in s.kids && s.kids[c] == g.s.kids[c])
         && (g.nm[c] != "modDate" ==> c in num && num[c] == g.num[c])
       else
         && c !in s.kids[x]
         && (exists md :: md in s.kids[x] && md in nm && nm[md] == "md" && md in s.kids && c in s.kids[md])
         && (exists l, mdNames :: mdNames in s.kids[x] && mdNames in nm && nm[mdNames] == "mdNames" && mdNames in s.kids
               && l in s.kids[mdNames] && l.text == g.nm[c])
  }

  lemma NamedPlaced(s: Shape, names: NameMap, x: KjNode, t: Shape, nm: NameMap, md: KjNode?, mdNames: KjNode)
    requires ShapeOk(s) && names.Keys == s.kids.Keys && x in s.kids
    requires Placed(s.kids[x], ObjectNamed(s, names, x), x, t, nm, md, mdNames)
    ensures Placed(s.kids[x], names, x, t, nm, md, mdNames)
  {
    RelationshipHas(s.kids[x], names);
    KidsIn(s, x);
    var names' := ObjectNamed(s, names, x);
    hide ShapeOk, Distinct, RelationshipObject;
    forall c | c in s.kids[x] ensures c in names && PlacedOne(names, x, t, nm, md, mdNames, c) {
      assert PlacedOne(names', x, t, nm, md, mdNames, c);
    }
  }

  /** What a round that adds an attribute leaves of its members. */
  ghost predicate Joined(a: Stage, x: KjNode, r: Round, b: Stage)
    requires r.Joining?
  {
    && x in a.s.kids && x in b.s.kids && Placed(a.s.kids[x], a.nm, x, b.s, b.nm, r.k.md, r.k.mdNames)
    && (forall c :: c in a.s.kids[x] && c != r.k.md && c != r.k.mdNames ==> c in a.s.kids && c in b.s.kids && b.s.kids[c] == a.s.kids[c])
    && r.dates.modDate in b.nm && b.nm[r.dates.modDate] == "modDate"
    && (forall n :: n in a.num && n != r.dates.modDate ==> n in b.num && b.num[n] == a.num[n])
  }

  lemma JoinedParts(e: Entity, now: int, x: KjNode, a: Stage, r: Round, b: Stage)
    requires RoundOk(e, now, x, a, r, b) && r.Joining?
    ensures x in a.s.kids && AddedAttribute(e, a.s, ObjectNamed(a.s, a.nm, x), |a.kept|, x, r.k, r.dates, b.s, b.nm)
    ensures e.attrs in a.s.kids
    ensures r.dates.modDate in b.nm && b.nm[r.dates.modDate] == "modDate"
    ensures forall n :: n in a.num && n != r.dates.modDate ==> n in b.num && b.num[n] == a.num[n]
  {
    hide AddedAttribute, Effect, ObjectNamed, OnlyNow, AddZone;
  }

  lemma AddedParts(e: Entity, s: Shape, nm: NameMap, j: nat, x: KjNode, k: Taken, d: Dates, t: Shape, nm': NameMap)
    requires AddedAttribute(e, s, nm, j, x, k, d, t, nm')
    ensures x in s.kids && x in t.kids && Placed(s.kids[x], nm, x, t, nm', k.md, k.mdNames)
    ensures Effect(k.s, k.nm, t, nm', {e.attrs, x, e.attrNames}, {}, {}, {x}) && TakenFrom(s, nm, e.mods, j, x, k)
  {
    hide TakenFrom, Effect, Completed, Placed;
  }

  /** What hangs below the members that stay is not touched. */
  lemma MemberLists(e: Entity, s: Shape, nm: NameMap, j: nat, x: KjNode, k: Taken, t: Shape, nm': NameMap, c: KjNode)
    requires TakenFrom(s, nm, e.mods, j, x, k) && Effect(k.s, k.nm, t, nm', {e.attrs, x, e.attrNames}, {}, {}, {x})
    requires EntityOk(e, s) && e.mods in s.kids && j < |s.kids[e.mods]| && s.kids[e.mods][j] == x
    requires x in s.kids && c in s.kids[x] && c != k.md && c != k.mdNames
    ensures c in s.kids && c in t.kids && t.kids[c] == s.kids[c]
  {
    EntityApart(e, s, x);
    EntityParts(e, s);
    KidsIn(s, x);
    RemovedKeys(s, e.mods, j);
    hide EntityOk, ShapeOk, TextsOk, Placed, Renamed, TopName, ObjectDone, Staying, Moving, Removed, Distinct, ParentsBut, NamesElsewhere;
    assert c in k.s.kids && k.s.kids[c] == s.kids[c];
  }

  lemma JoinedAll(g: Goal, a: Stage, i: nat, r: Round, b: Stage)
    requires g.e.mods in g.s.kids && i < |Mods(g)| && MergedTo(g, a.s, a.nm, i, a.kept, a.names)
    requires RoundOk(g.e, g.now, Mods(g)[i], a, r, b) && r.Joining?
    ensures Joined(a, Mods(g)[i], r, b)
  {
    hide *;
    var x := Mods(g)[i];
    Here(g, a.s, a.nm, i, a.kept, a.names);
    EntityParts(g.e, a.s);
    JoinedParts(g.e, g.now, x, a, r, b);
    var nm := ObjectNamed(a.s, a.nm, x);
    AddedParts(g.e, a.s, nm, |a.kept|, x, r.k, r.dates, b.s, b.nm);
    NamedPlaced(a.s, a.nm, x, b.s, b.nm, r.k.md, r.k.mdNames);
    forall c | c in a.s.kids[x] && c != r.k.md && c != r.k.mdNames ensures c in a.s.kids && c in b.s.kids && b.s.kids[c] == a.s.kids[c] {
      MemberLists(g.e, a.s, nm, |a.kept|, x, r.k, b.s, b.nm, c);
    }
    JoinedIs(a, x, r, b);
  }

  lemma JoinedIs(a: Stage, x: KjNode, r: Round, b: Stage)
    requires r.Joining? && x in a.s.kids && x in b.s.kids && Placed(a.s.kids[x], a.nm, x, b.s, b.nm, r.k.md, r.k.mdNames)
    requires forall c :: c in a.s.kids[x] && c != r.k.md && c != r.k.mdNames ==> c in a.s.kids && c in b.s.kids && b.s.kids[c] == a.s.kids[c]
    requires r.dates.modDate in b.nm && b.nm[r.dates.modDate] == "modDate"
    requires forall n :: n in a.num && n != r.dates.modDate ==> n in b.num && b.num[n] == a.num[n]
    ensures Joined(a, x, r, b)
  {
    hide Placed;
  }

  lemma StandsFrom(g: Goal, o: Stage, a: Stage, x: KjNode, r: Round, b: Stage, s: Shape, nm: NameMap, num: NumberMap, c: KjNode)
    requires o == Stage(g.s, g.nm, g.num, [], []) && SameAttribute(o, a.s, a.nm, x) && SameNumbers(o, a.num, x)
    requires r.Joining? && Joined(a, x, r, b) && SameAttribute(b, s, nm, x) && SameNumbers(b, num, x)
    requires x in g.s.kids && c in g.s.kids[x]
    ensures x in s.kids && Stands(g, x, c, s, nm, num)
  {
    var md, mdNames := r.k.md, r.k.mdNames;
    assert PlacedOne(a.nm, x, b.s, b.nm, md, mdNames, c);
    if g.nm[c] in ["type", "value", "object", "creDate", "modDate", "md", "mdNames"] {
    } else {
      var l :| l in b.s.kids[mdNames] && l.text == a.nm[c];
      assert md in s.kids[x] && nm[md] == "md" && c in s.kids[md];
      assert mdNames in s.kids[x] && nm[mdNames] == "mdNames" && l in s.kids[mdNames];
    }
  }

  /** A new attribute that no later member of the request names stands at the end as the request has it: its members
      are still there, the value and the type among them, or have become metadata. */
  lemma NewAttributeStands(g: Goal, source: KjNode, mods: KjNode, s: Shape, nm: NameMap, num: NumberMap, ok: bool,
                           stages: seq<Stage>, rounds: seq<Round>, k: nat)
    requires Merged(g, source, mods, s, nm, num, ok, stages, rounds) && k < |rounds| && rounds[k].Joining?
    requires forall l :: k < l < |rounds| && Mods(g)[l].kind == KjObject && Mods(g)[l] in g.nm && Mods(g)[k] in g.nm
               ==> g.nm[Mods(g)[l]] != g.nm[Mods(g)[k]]
    ensures var x := Mods(g)[k]; x in g.s.kids && x in s.kids && forall c :: c in g.s.kids[x] ==> Stands(g, x, c, s, nm, num)
    ensures g.e.attrs in s.kids && Mods(g)[k] in s.kids[g.e.attrs]
  {
    hide *;
    MergedParts(g, source, mods, s, nm, num, ok, stages, rounds);
    LastRoundStands(g, source, mods, s, nm, num, ok, stages, rounds, k);
    LogAt(g, stages, rounds, k);
    LogStage(g, stages, rounds, k + 1);
    LogBegin(g, stages, rounds);
    Waits(g, stages, rounds, k, k);
    var x := Mods(g)[k];
    WorkedOnIs(rounds[k], x);
    WorkedOnThere(g, stages[k], stages[k + 1], k, rounds[k], x);
    UntouchedSince(g, stages, rounds, k + 1, |rounds|, x);
    JoinedAll(g, stages[k], k, rounds[k], stages[k + 1]);
    SameThere(stages[0], stages[k].s, stages[k].nm, x);
    SameThere(stages[k + 1], s, nm, x);
    forall c | c in g.s.kids[x] ensures Stands(g, x, c, s, nm, num) {
      StandsFrom(g, stages[0], stages[k], x, rounds[k], stages[k + 1], s, nm, num, c);
    }
  }

  lemma SameThere(o: Stage, s: Shape, nm: NameMap, a: KjNode)
    requires SameAttribute(o, s, nm, a)
    ensures a in o.s.kids && a in s.kids
  {
  }

  lemma WorkedOnIs(r: Round, x: KjNode)
    requires r.Joining?
    ensures WorkedOn(r, x) == x
  {
  }

  lemma MergedParts(g: Goal, source: KjNode, mods: KjNode, s: Shape, nm: NameMap, num: NumberMap, ok: bool,
                    stages: seq<Stage>, rounds: seq<Round>)
    requires Merged(g, source, mods, s, nm, num, ok, stages, rounds)
    ensures Log(g, stages, rounds) && |stages| == |rounds| + 1 && stages[|rounds|].s == s && |rounds| <= |Mods(g)|
    ensures stages[|rounds|].nm == nm && stages[|rounds|].num == num
  {
    LogLast(g, stages, rounds);
    hide Log, Bad;
  }

  // ---- an attribute that is there already ----

  /** No later member of the update is called so; "object" stands for "value". */
  ghost predicate LastCalled(ks: seq<KjNode>, names: NameMap, m: nat, name: string) {
    forall l :: m < l < |ks| && ks[l] in names ==> names[ks[l]] != name && !(name == "value" && names[ks[l]] == "object")
  }

  /** Member m of an update that was merged into attribute y: a type, a value, a date, or one called like a member that y
      had, is a member of y; any other one is in md, and its name in mdNames. */
  ghost predicate Landed(ks: seq<KjNode>, names: NameMap, top: seq<KjNode>, topNames: NameMap, m: nat, y: KjNode, s: Shape, nm: NameMap)
    requires m < |ks| && y in s.kids
  {
    && ks[m] in names
    && var c, name := ks[m], if names[ks[m]] == "object" then "value" else names[ks[m]];
    if name in ["type", "value", "creDate", "modDate"] || NamedBy(top, topNames, name) then
      LastCalled(ks, names, m, name) ==> c in s.kids[y] && c in nm && nm[c] == name
    else
      (forall n :: n in ks && n in names ==> names[n] !in ["md", "mdNames"]) ==>
        && (exists md :: md in s.kids[y] && md in nm && nm[md] == "md" && md in s.kids && c in s.kids[md])
        && (exists l, mdNames :: mdNames in s.kids[y] && mdNames in nm && nm[mdNames] == "mdNames" && mdNames in s.kids
              && l in s.kids[mdNames] && l.text == name)
  }

  /** A member of y whose name the update does not have is still a member. */
  ghost predicate Survived(ks: seq<KjNode>, names: NameMap, top: seq<KjNode>, topNames: NameMap, t: KjNode, y: KjNode, s: Shape, nm: NameMap)
    requires y in s.kids
  {
    t in topNames &&
    ((forall n :: n in ks && n in names ==> names[n] != topNames[t] && !(topNames[t] == "value" && names[n] == "object")) ==>
       t in s.kids[y] && t in nm && nm[t] == topNames[t])
  }

  ghost predicate Updated(ks: seq<KjNode>, names: NameMap, top: seq<KjNode>, topNames: NameMap, y: KjNode, s: Shape, nm: NameMap) {
    && y in s.kids
    && (forall m :: 0 <= m < |ks| ==> Landed(ks, names, top, topNames, m, y, s, nm))
    && (forall t :: t in top ==> Survived(ks, names, top, topNames, t, y, s, nm))
  }

  lemma OutcomeLanded(p: Plan, a: Layout, y: KjNode, s: Shape, nm: NameMap, m: nat)
    requires Outcome(p, a, |p.members|) && m < |p.members| && y in s.kids && a.top == s.kids[y] && a.names == nm
    requires a.namesNode in s.kids && a.mdNames == s.kids[a.namesNode]
    requires if a.mdNode == null then a.md == [] else a.mdNode in s.kids && a.md == s.kids[a.mdNode]
    ensures Landed(p.members, p.names, p.top, p.names, m, y, s, nm)
  {
    hide Outcome;
    NewNamed(p, a, m);
    var c := p.members[m];
    var name := if p.names[c] == "object" then "value" else p.names[c];
    MemberPlaced(p, a, m, name);
  }

  lemma NewNamed(p: Plan, a: Layout, m: nat)
    requires Outcome(p, a, |p.members|) && m < |p.members|
    ensures p.members[m] in p.names
  {
    assert p.members[m] in p.members;
    hide Waiting, NamesKnown, Overwritten, Kept, InMd, ListsThere, NoListNames, Distinct;
  }

  lemma OutcomeSurvived(p: Plan, a: Layout, y: KjNode, s: Shape, nm: NameMap, t: KjNode)
    requires Outcome(p, a, |p.members|) && t in p.top && y in s.kids && a.top == s.kids[y] && a.names == nm
    ensures Survived(p.members, p.names, p.top, p.names, t, y, s, nm)
  {
    assert t in p.names by {
      hide Waiting, NamesKnown, Overwritten, Kept, InMd, ListsThere, NoListNames, Distinct;
    }
    hide Outcome;
    if forall n :: n in p.members && n in p.names ==> p.names[n] != p.names[t] && !(p.names[t] == "value" && p.names[n] == "object") {
      MemberKept(p, a, t);
    }
  }

  lemma MergeUpdated(e: Entity, x: KjNode, a: Stage, r: Round, nm: NameMap, b: Stage)
    requires r.Merging? && MergeRound(e, x, a, r, nm, b)
    ensures Updated(a.s.kids[x], nm, a.s.kids[r.y], nm, r.y, b.s, b.nm)
  {
    hide Effect, MergedAttribute, Updated;
    OutcomeUpdated(Merge(a.s, nm, r.y, x), r.md0, r.mdNames0, r.md, r.mdNames, b.s, b.nm);
  }

  lemma OutcomeUpdated(m: Merge, md0: KjNode?, mdNames0: KjNode?, md: KjNode?, mdNames: KjNode, s: Shape, nm: NameMap)
    requires MergedAttribute(m, s, nm, md0, mdNames0, md, mdNames)
    ensures m.update in m.s.kids && m.source in m.s.kids
    ensures Updated(m.s.kids[m.update], m.nm, m.s.kids[m.source], m.nm, m.source, s, nm)
  {
    var p, l := PlanOf(m, md0, mdNames0), LayoutOf(s, nm, m.source, md, mdNames);
    assert Outcome(p, l, |p.members|);
    assert l.namesNode in s.kids && l.mdNames == s.kids[l.namesNode];
    hide Outcome, NamedBy, Landed, Survived, MergedAttribute;
    forall k | 0 <= k < |p.members| ensures Landed(p.members, p.names, p.top, p.names, k, m.source, s, nm) {
      OutcomeLanded(p, l, m.source, s, nm, k);
    }
    forall t | t in p.top ensures Survived(p.members, p.names, p.top, p.names, t, m.source, s, nm) {
      OutcomeSurvived(p, l, m.source, s, nm, t);
    }
  }

  /** The same with the names before objectToValue has looked at x. */
  lemma LandedNames(ks: seq<KjNode>, names: NameMap, names': NameMap, top: seq<KjNode>, topNames: NameMap, topNames': NameMap,
                    m: nat, y: KjNode, s: Shape, nm: NameMap)
    requires m < |ks| && y in s.kids && Landed(ks, names, top, topNames, m, y, s, nm)
    requires forall n :: n in ks ==>
      n in names && n in names' && (names'[n] == names[n] || (names'[n] == "object" && names[n] == "value"))
    requires forall n :: n in top ==> n in topNames && n in topNames' && topNames'[n] == topNames[n]
    ensures Landed(ks, names', top, topNames', m, y, s, nm)
  {
    assert ks[m] in ks && forall l :: 0 <= l < |ks| ==> ks[l] in ks;
    forall name ensures NamedBy(top, topNames, name) <==> NamedBy(top, topNames', name) {
    }
    hide NamedBy;
  }

  lemma SurvivedNames(ks: seq<KjNode>, names: NameMap, names': NameMap, top: seq<KjNode>, topNames: NameMap, topNames': NameMap,
                      t: KjNode, y: KjNode, s: Shape, nm: NameMap)
    requires y in s.kids && t in top && Survived(ks, names, top, topNames, t, y, s, nm)
    requires forall n :: n in ks ==>
      n in names && n in names' && (names'[n] == names[n] || (names'[n] == "object" && names[n] == "value"))
    requires forall n :: n in top ==> n in topNames && n in topNames' && topNames'[n] == topNames[n]
    ensures Survived(ks, names', top, topNames', t, y, s, nm)
  {
  }

  lemma UpdatedNames(ks: seq<KjNode>, names: NameMap, names': NameMap, top: seq<KjNode>, topNames: NameMap, topNames': NameMap,
                     y: KjNode, s: Shape, nm: NameMap)
    requires Updated(ks, names, top, topNames, y, s, nm)
    requires forall n :: n in ks ==>
      n in names && n in names' && (names'[n] == names[n] || (names'[n] == "object" && names[n] == "value"))
    requires forall n :: n in top ==> n in topNames && n in topNames' && topNames'[n] == topNames[n]
    ensures Updated(ks, names', top, topNames', y, s, nm)
  {
    hide Landed, Survived;
    forall m | 0 <= m < |ks| ensures Landed(ks, names', top, topNames', m, y, s, nm) {
      LandedNames(ks, names, names', top, topNames, topNames', m, y, s, nm);
    }
    forall t | t in top ensures Survived(ks, names', top, topNames', t, y, s, nm) {
      SurvivedNames(ks, names, names', top, topNames, topNames', t, y, s, nm);
    }
  }

  /** The same at the end, as attribute y is not touched any more. */
  lemma UpdatedSince(ks: seq<KjNode>, names: NameMap, top: seq<KjNode>, topNames: NameMap, y: KjNode, b: Stage, s: Shape, nm: NameMap)
    requires Updated(ks, names, top, topNames, y, b.s, b.nm) && SameAttribute(b, s, nm, y)
    ensures Updated(ks, names, top, topNames, y, s, nm)
  {
    hide NamedBy, LastCalled;
    forall m | 0 <= m < |ks| ensures Landed(ks, names, top, topNames, m, y, s, nm) {
      assert Landed(ks, names, top, topNames, m, y, b.s, b.nm);
    }
    forall t | t in top ensures Survived(ks, names, top, topNames, t, y, s, nm) {
      assert Survived(ks, names, top, topNames, t, y, b.s, b.nm);
    }
  }

  lemma UpdatedHere(g: Goal, a: Stage, i: nat, r: Round, b: Stage)
    requires g.e.mods in g.s.kids && i < |Mods(g)| && MergedTo(g, a.s, a.nm, i, a.kept, a.names)
    requires RoundOk(g.e, g.now, Mods(g)[i], a, r, b) && r.Merging?
    ensures var x := Mods(g)[i]; x in a.s.kids && r.y in a.s.kids && Updated(a.s.kids[x], a.nm, a.s.kids[r.y], a.nm, r.y, b.s, b.nm)
  {
    hide *;
    var x := Mods(g)[i];
    MergingParts(g.e, g.now, x, a, r, b);
    Here(g, a.s, a.nm, i, a.kept, a.names);
    AttrHere(g, a, i, x, r.y);
    EntityParts(g.e, a.s);
    KidsIn(a.s, x);
    KidsIn(a.s, r.y);
    var nm := ObjectNamed(a.s, a.nm, x);
    MergeUpdated(g.e, x, a, r, nm, b);
    OneRenamed(a.s, a.nm, x);
    UpdatedNames(a.s.kids[x], nm, a.nm, a.s.kids[r.y], nm, a.nm, r.y, b.s, b.nm);
  }

  lemma OneRenamed(s: Shape, nm: NameMap, x: KjNode)
    requires x in s.kids
    ensures var nm' := ObjectNamed(s, nm, x);
      forall n :: n in nm ==> n in nm' && (nm[n] == nm'[n] || (nm[n] == "object" && nm'[n] == "value" && n in s.kids[x]))
  {
    RelationshipHas(s.kids[x], nm);
    hide RelationshipObject;
  }

  lemma MergingParts(e: Entity, now: int, x: KjNode, a: Stage, r: Round, b: Stage)
    requires RoundOk(e, now, x, a, r, b) && r.Merging?
    ensures x in a.s.kids && e.attrs in a.s.kids && r.y in a.s.kids && r.y in a.s.kids[e.attrs]
    ensures MergeRound(e, x, a, r, ObjectNamed(a.s, a.nm, x), b)
    ensures NumbersKept(a.nm, a.num, b.nm, b.num)
  {
    hide MergedAttribute, Effect, ObjectNamed, OnlyNow, NumbersKept;
  }

  /** The last update of an attribute has the last word: its members stand at the end as the request has them, or have
      become metadata, and members that it does not name are still there. */
  lemma LastUpdateStands(g: Goal, source: KjNode, mods: KjNode, s: Shape, nm: NameMap, num: NumberMap, ok: bool,
                         stages: seq<Stage>, rounds: seq<Round>, k: nat)
    requires Merged(g, source, mods, s, nm, num, ok, stages, rounds) && k < |rounds| && rounds[k].Merging?
    requires forall l :: k < l < |rounds| && Mods(g)[l].kind == KjObject && Mods(g)[l] in g.nm && Mods(g)[k] in g.nm
               ==> g.nm[Mods(g)[l]] != g.nm[Mods(g)[k]]
    ensures var a, x, y := stages[k], Mods(g)[k], rounds[k].y;
      && x in g.s.kids && y in a.s.kids && g.e.attrs in a.s.kids && y in a.s.kids[g.e.attrs]
      && Updated(g.s.kids[x], g.nm, a.s.kids[y], a.nm, y, s, nm)
      && forall c :: c in s.kids[y] && c in nm && nm[c] != "modDate" ==>
        && (c in g.s.kids[x] && c in g.nm && g.nm[c] != "modDate" ==> c in num && c in g.num && num[c] == g.num[c])
        && (c in a.s.kids[y] && c in a.nm && a.nm[c] != "modDate" ==> c in num && c in a.num && num[c] == a.num[c])
  {
    hide *;
    MergedParts(g, source, mods, s, nm, num, ok, stages, rounds);
    LastRoundStands(g, source, mods, s, nm, num, ok, stages, rounds, k);
    LogAt(g, stages, rounds, k);
    LogBegin(g, stages, rounds);
    Waits(g, stages, rounds, k, k);
    var a, x, y := stages[k], Mods(g)[k], rounds[k].y;
    MergingParts(g.e, g.now, x, a, rounds[k], stages[k + 1]);
    WorkedOnMerging(rounds[k], x);
    UpdatedHere(g, a, k, rounds[k], stages[k + 1]);
    UpdatedSince(a.s.kids[x], a.nm, a.s.kids[y], a.nm, y, stages[k + 1], s, nm);
    SameMembers(stages[0], a.s, a.nm, x);
    TopNamed(g, a, k, y);
    UpdatedNames(a.s.kids[x], a.nm, g.nm, a.s.kids[y], a.nm, a.nm, y, s, nm);
    LogStage(g, stages, rounds, k);
    SameThere(stages[k + 1], s, nm, y);
    forall c | c in s.kids[y] && c in nm && nm[c] != "modDate"
      ensures c in g.s.kids[x] && c in g.nm && g.nm[c] != "modDate" ==> c in num && c in g.num && num[c] == g.num[c]
      ensures c in a.s.kids[y] && c in a.nm && a.nm[c] != "modDate" ==> c in num && c in a.num && num[c] == a.num[c]
    {
      UpdatedNumber(stages[0], a, x, stages[k + 1], y, s, nm, num, c);
    }
  }

  lemma UpdatedNumber(o: Stage, a: Stage, x: KjNode, b: Stage, y: KjNode, s: Shape, nm: NameMap, num: NumberMap, c: KjNode)
    requires SameAttribute(o, a.s, a.nm, x) && SameNumbers(o, a.num, x) && NumbersKept(a.nm, a.num, b.nm, b.num)
    requires SameAttribute(b, s, nm, y) && SameNumbers(b, num, y) && a.num.Keys == a.s.kids.Keys
    requires x in o.s.kids && y in a.s.kids && y in s.kids && c in s.kids[y] && c in nm && nm[c] != "modDate"
    requires c in a.s.kids[y] && c in a.nm ==> c in a.s.kids
    ensures c in o.s.kids[x] && c in o.nm && o.nm[c] != "modDate" ==> c in num && c in o.num && num[c] == o.num[c]
    ensures c in a.s.kids[y] && c in a.nm && a.nm[c] != "modDate" ==> c in num && c in a.num && num[c] == a.num[c]
  {
  }

  lemma TopNamed(g: Goal, a: Stage, i: nat, y: KjNode)
    requires MergedTo(g, a.s, a.nm, i, a.kept, a.names) && i < |Mods(g)| && y in a.s.kids
    ensures forall t :: t in a.s.kids[y] ==> t in a.nm && t in a.s.kids
  {
    hide *;
    Here(g, a.s, a.nm, i, a.kept, a.names);
    EntityParts(g.e, a.s);
    KidsIn(a.s, y);
  }

  lemma SameMembers(o: Stage, s: Shape, nm: NameMap, a: KjNode)
    requires SameAttribute(o, s, nm, a)
    ensures a in o.s.kids && a in s.kids && s.kids[a] == o.s.kids[a]
    ensures forall c :: c in s.kids[a] ==> c in o.nm && c in nm && nm[c] == o.nm[c]
  {
  }

  lemma WorkedOnMerging(r: Round, x: KjNode)
    requires r.Merging?
    ensures WorkedOn(r, x) == r.y
  {
  }
}
