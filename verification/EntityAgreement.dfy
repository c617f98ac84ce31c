/** attrs and attrNames: two representations of one thing, which every merge keeps in agreement. */
module EntityAgreement {
  import opened Sequences
  import opened Kjson
  import opened AttributeMetadata
  import opened AttributeMerge
  import opened Dots
  import opened EntityShape
  import opened EntityMerge
  import opened EntityMergeLoop

  ghost predicate DotFree(ns: seq<KjNode>, nm: NameMap) {
    forall n :: n in ns && n in nm ==> '.' !in nm[n]
  }

  /** The entries of attrNames are the dot forms of the keys of attrs, position by position, and keys are distinct. */
  ghost predicate Agree(s: Shape, nm: NameMap, attrs: KjNode, attrNames: KjNode) {
    && attrs in s.kids && attrNames in s.kids
    && DistinctNames(s.kids[attrs], nm) && DotForms(s.kids[attrNames], s.kids[attrs], nm)
  }

  // ---- what is added has new names ----

  lemma {:induction false} NewOnesDistinct(g: Goal, i: nat)
    requires Usable(g) && i <= |Mods(g)| && DistinctNames(Attrs(g), g.nm)
    ensures DistinctNames(Attrs(g) + NewOnes(g, i), g.nm)
  {
    if i > 0 {
      NewOnesDistinct(g, i - 1);
      NewOnesNext(g, i - 1);
      var ns, x := Attrs(g) + NewOnes(g, i - 1), Mods(g)[i - 1];
      hide NewOnes, Usable;
      if NewOnes(g, i) != NewOnes(g, i - 1) {
        NewNameDistinct(ns, x, g.nm);
        assert Attrs(g) + NewOnes(g, i) == ns + [x];
      }
    }
  }

  lemma DotFormsJoin(a: seq<KjNode>, b: seq<KjNode>, a': seq<KjNode>, b': seq<KjNode>, nm: NameMap, nm': NameMap)
    requires DotForms(a, b, nm) && DotForms(a', b', nm)
    requires forall n :: n in b + b' ==> n in nm && n in nm' && nm'[n] == nm[n]
    ensures DotForms(a + a', b + b', nm')
  {
    forall i | 0 <= i < |b + b'| ensures (b + b')[i] in nm' && (a + a')[i].text == EqForDot(nm'[(b + b')[i]]) {
      assert (b + b')[i] in b + b';
    }
  }

  /** However far a merge gets, the agreement holds afterwards if it held before. */
  lemma AgreementKept(g: Goal, s: Shape, nm: NameMap, i: nat, kept: seq<KjNode>, names: seq<KjNode>)
    requires MergedTo(g, s, nm, i, kept, names) && Agree(g.s, g.nm, g.e.attrs, g.e.attrNames)
    ensures Agree(s, nm, g.e.attrs, g.e.attrNames)
  {
    NewOnesDistinct(g, i);
    NewOnesFrom(g, i);
    hide NewOnes, EntityOk, AttrOk, LiveKids, DotForms, DistinctNames;
    var ns := Attrs(g) + NewOnes(g, i);
    assert forall n :: n in ns ==> n in g.nm && n in nm && nm[n] == g.nm[n];
    hide MergedTo, Usable, SameNames;
    DistinctNamesSame(ns, g.nm, nm);
    DotFormsJoin(g.s.kids[g.e.attrNames], Attrs(g), names, NewOnes(g, i), g.nm, nm);
  }

  /** With keys without dots, as the caller makes those of the request, keys stay without dots. */
  lemma DotFreeKept(g: Goal, s: Shape, nm: NameMap, i: nat, kept: seq<KjNode>, names: seq<KjNode>)
    requires MergedTo(g, s, nm, i, kept, names) && DotFree(Attrs(g), g.nm)
    ensures DotFree(s.kids[g.e.attrs], nm) <==> DotFree(NewOnes(g, i), g.nm)
    ensures DotFree(Mods(g), g.nm) ==> DotFree(s.kids[g.e.attrs], nm)
  {
    NewOnesFrom(g, i);
    hide NewOnes, EntityOk, AttrOk, LiveKids, DotForms;
    var ns := Attrs(g) + NewOnes(g, i);
    assert forall n :: n in ns ==> n in g.nm && n in nm && nm[n] == g.nm[n];
    assert forall n :: n in NewOnes(g, i) ==> n in ns;
  }

  /** With keys without dots the agreement is one to one: no name stands twice in attrNames. */
  lemma OneToOne(s: Shape, nm: NameMap, attrs: KjNode, attrNames: KjNode, i: nat, j: nat)
    requires Agree(s, nm, attrs, attrNames) && DotFree(s.kids[attrs], nm)
    requires i < j < |s.kids[attrNames]|
    ensures s.kids[attrNames][i].text != s.kids[attrNames][j].text
  {
    var ks := s.kids[attrs];
    assert ks[i] in ks && ks[j] in ks;
    DotFormsDiffer(nm[ks[i]], nm[ks[j]]);
  }

  // ---- the whole function ----

  /** The entity has members attrs and attrNames. */
  ghost predicate HasParts(s: Shape, nm: NameMap, source: KjNode) {
    HasChild(s, nm, source, "attrs") && HasChild(s, nm, source, "attrNames")
  }

  lemma HasPartsIs(s: Shape, nm: NameMap, source: KjNode)
    requires source in s.kids
    ensures HasParts(s, nm, source) <==>
      && (exists k :: k in s.kids[source] && k in nm && nm[k] == "attrs")
      && (exists k :: k in s.kids[source] && k in nm && nm[k] == "attrNames")
  {
  }

  method FindParts(f: Forest, sourceTree: KjNode) returns (attrs: KjNode?, attrNames: KjNode?)
    requires f.Valid() && Live(f.shape, sourceTree) && sourceTree in f.shape.kids
    ensures HasParts(f.shape, Names(f.shape.kids.Keys), sourceTree) <==> attrs != null && attrNames != null
    ensures attrs != null ==> attrs in f.shape.kids[sourceTree] && attrs in f.shape.kids && attrs.name == "attrs"
    ensures attrNames != null ==> attrNames in f.shape.kids[sourceTree] && attrNames in f.shape.kids && attrNames.name == "attrNames"
  {
    hide *;
    f.ValidFacts();
    AllNames(f.shape.kids.Keys);
    KidsIn(f.shape, sourceTree);
    ghost var j, k;
    attrNames, j := f.Lookup(sourceTree, "attrNames");
    attrs, k := f.Lookup(sourceTree, "attrs");
    FoundName(f.shape.kids[sourceTree], Names(f.shape.kids.Keys), j, "attrNames");
    FoundName(f.shape.kids[sourceTree], Names(f.shape.kids.Keys), k, "attrs");
    HasPartsIs(f.shape, Names(f.shape.kids.Keys), sourceTree);
  }

  /** A tree from the database and a request that can be merged into it: nothing is shared, and every attribute in
      the database has a modification date. */
  ghost predicate Mergeable(s: Shape, nm: NameMap, source: KjNode, mods: KjNode) {
    && source != mods && LiveKids(s, source) && Free(s, source) && LiveKids(s, mods) && Free(s, mods)
    && source in s.kids && mods in s.kids
    && (forall r :: r in s.kids[mods] ==> LiveKids(s, r))
    && (forall c :: c in s.kids[source] && c in nm && nm[c] == "attrs" && c in s.kids ==> AllAttrsOk(s, nm, c))
  }

  ghost predicate AllAttrsOk(s: Shape, nm: NameMap, attrs: KjNode)
    requires attrs in s.kids
  {
    forall a :: a in s.kids[attrs] ==> AttrOk(s, nm, a)
  }

  lemma MergeableStart(g: Goal)
    requires ShapeOk(g.s) && g.nm.Keys == g.s.kids.Keys && g.num.Keys == g.s.kids.Keys && Mergeable(g.s, g.nm, g.e.source, g.e.mods)
    requires g.e.source in g.s.kids && g.e.attrs in g.s.kids[g.e.source] && g.e.attrNames in g.s.kids[g.e.source]
    requires g.e.attrs in g.nm && g.nm[g.e.attrs] == "attrs" && g.e.attrNames in g.nm && g.nm[g.e.attrNames] == "attrNames"
    ensures MergedTo(g, g.s, g.nm, 0, [], [])
  {
    assert AllAttrsOk(g.s, g.nm, g.e.attrs);
    hide ShapeOk, AttrOk, MergedTo;
    MergeStart(g);
  }

  lemma MergeableLive(s: Shape, nm: NameMap, source: KjNode, mods: KjNode)
    requires Mergeable(s, nm, source, mods)
    ensures Live(s, source) && source in s.kids && mods in s.kids
  {
  }

  /** kjTreeMergeAddNewAttrsOverwriteExisting. `e` says which parts were found, and the log what each
      round did and how far it got. */
  method MergeTree(f: Forest, sourceTree: KjNode, modTree: KjNode, now: int)
      returns (ok: bool, ghost e: Entity, ghost stages: seq<Stage>, ghost rounds: seq<Round>)
    requires f.Valid() && Mergeable(f.shape, Names(f.shape.kids.Keys), sourceTree, modTree)
    modifies f`shape, f.shape.kids.Keys`next, f.shape.kids.Keys`firstChild, f.shape.kids.Keys`lastChild,
             f.shape.kids.Keys`name, f.shape.kids.Keys`number
    ensures f.Valid()
    ensures !HasParts(old(f.shape), old(Names(f.shape.kids.Keys)), sourceTree) ==>
      !ok && f.shape == old(f.shape) && Names(f.shape.kids.Keys) == old(Names(f.shape.kids.Keys))
    ensures HasParts(old(f.shape), old(Names(f.shape.kids.Keys)), sourceTree) ==>
      Merged(Goal(e, old(f.shape), old(Names(f.shape.kids.Keys)), old(Numbers(f.shape.kids.Keys)), now), sourceTree, modTree,
             f.shape, Names(f.shape.kids.Keys), Numbers(f.shape.kids.Keys), ok, stages, rounds)
  {
    hide *;
    stages, rounds := [], [];
    MergeableLive(f.shape, Names(f.shape.kids.Keys), sourceTree, modTree);
    var attrs, attrNames := FindParts(f, sourceTree);
    if attrs == null {
      e := Entity(sourceTree, sourceTree, sourceTree, modTree);
      return false, e, stages, rounds;
    }
    if attrNames == null {
      e := Entity(sourceTree, sourceTree, sourceTree, modTree);
      return false, e, stages, rounds;
    }
    var entity := Entity(sourceTree, attrs, attrNames, modTree);
    e := entity;
    ghost var g := Goal(e, f.shape, Names(f.shape.kids.Keys), Numbers(f.shape.kids.Keys), now);
    f.ValidFacts();
    AllNames(f.shape.kids.Keys);
    AllNumbers(f.shape.kids.Keys);
    MergeableStart(g);
    ok, stages, rounds := MergeLoop(f, entity, now, g);
    LogLast(g, stages, rounds);
    MergedIs(g, sourceTree, modTree, f.shape, Names(f.shape.kids.Keys), Numbers(f.shape.kids.Keys), ok, stages, rounds);
  }

  /** The outcome: the rounds went from the tree before to the tree now, up to the first member of the request that is
      not allowed there. */
  ghost predicate Merged(g: Goal, source: KjNode, mods: KjNode, s: Shape, nm: NameMap, num: NumberMap, ok: bool, stages: seq<Stage>, rounds: seq<Round>) {
    && g.e.source == source && g.e.mods == mods && Log(g, stages, rounds)
    && stages[|rounds|].s == s && stages[|rounds|].nm == nm && stages[|rounds|].num == num
    && g.e.attrs in g.nm && g.nm[g.e.attrs] == "attrs" && g.e.attrNames in g.nm && g.nm[g.e.attrNames] == "attrNames"
    && (forall k :: 0 <= k < |rounds| ==> !Bad(g, Mods(g)[k]))
    && if ok then |rounds| == |Mods(g)| else |rounds| < |Mods(g)| && Bad(g, Mods(g)[|rounds|])
  }

  lemma MergedIs(g: Goal, source: KjNode, mods: KjNode, s: Shape, nm: NameMap, num: NumberMap, ok: bool, stages: seq<Stage>, rounds: seq<Round>)
    requires g.e.source == source && g.e.mods == mods && Log(g, stages, rounds)
    requires stages[|rounds|].s == s && stages[|rounds|].nm == nm && stages[|rounds|].num == num
    requires g.e.attrs in g.nm && g.nm[g.e.attrs] == "attrs" && g.e.attrNames in g.nm && g.nm[g.e.attrNames] == "attrNames"
    requires forall k :: 0 <= k < |rounds| ==> !Bad(g, Mods(g)[k])
    requires if ok then |rounds| == |Mods(g)| else |rounds| < |Mods(g)| && Bad(g, Mods(g)[|rounds|])
    ensures Merged(g, source, mods, s, nm, num, ok, stages, rounds)
  {
    LogLast(g, stages, rounds);
    hide Log, MergedTo, Bad;
  }

  /** The merge succeeds exactly when every member of the request is an object, or is called type, value or object. */
  lemma SucceedsIff(g: Goal, source: KjNode, mods: KjNode, s: Shape, nm: NameMap, num: NumberMap, ok: bool,
                    stages: seq<Stage>, rounds: seq<Round>)
    requires Merged(g, source, mods, s, nm, num, ok, stages, rounds)
    ensures g.e.mods in g.s.kids
    ensures ok <==> forall n :: n in g.s.kids[g.e.mods] ==>
      n in g.nm && (n.kind == KjObject || g.nm[n] == "type" || g.nm[n] == "value" || g.nm[n] == "object")
  {
    hide *;
    MergedBad(g, source, mods, s, nm, num, ok, stages, rounds);
    ModsNamed(g);
    forall n | n in Mods(g) ensures Bad(g, n) <==> n.kind != KjObject && g.nm[n] != "type" && g.nm[n] != "value" && g.nm[n] != "object" {
      BadIs(g, n);
    }
    ModsIs(g);
  }

  lemma ModsIs(g: Goal)
    requires g.e.mods in g.s.kids
    ensures Mods(g) == g.s.kids[g.e.mods]
  {
  }

  lemma MergedBad(g: Goal, source: KjNode, mods: KjNode, s: Shape, nm: NameMap, num: NumberMap, ok: bool,
                  stages: seq<Stage>, rounds: seq<Round>)
    requires Merged(g, source, mods, s, nm, num, ok, stages, rounds)
    ensures Usable(g) && g.e.mods in g.s.kids
    ensures ok ==> forall n :: n in Mods(g) ==> !Bad(g, n)
    ensures !ok ==> exists n :: n in Mods(g) && Bad(g, n)
  {
    LogLast(g, stages, rounds);
    hide Log, Bad, MergedTo, Usable;
    if !ok {
      assert Mods(g)[|rounds|] in Mods(g);
    }
  }

  lemma ModsNamed(g: Goal)
    requires Usable(g)
    ensures g.e.mods in g.s.kids && forall n :: n in Mods(g) ==> n in g.nm
  {
    hide GoalOk;
  }

  /** An attribute that the request does not name is as it was before, its dates included. */
  lemma OthersUntouched(g: Goal, source: KjNode, mods: KjNode, s: Shape, nm: NameMap, num: NumberMap, ok: bool,
                        stages: seq<Stage>, rounds: seq<Round>, a: KjNode)
    requires Merged(g, source, mods, s, nm, num, ok, stages, rounds) && a in Attrs(g)
    requires forall k :: 0 <= k < |rounds| && Mods(g)[k].kind == KjObject && Mods(g)[k] in g.nm && a in g.nm ==> g.nm[Mods(g)[k]] != g.nm[a]
    ensures SameAttribute(Stage(g.s, g.nm, g.num, [], []), s, nm, a) && SameNumbers(Stage(g.s, g.nm, g.num, [], []), num, a)
  {
    LogLast(g, stages, rounds);
    assert stages[0] == Stage(g.s, g.nm, g.num, [], []);
    hide *;
    UntouchedSince(g, stages, rounds, 0, |rounds|, a);
    NumbersSince(g, stages, rounds, 0, |rounds|, a);
  }

  /** The last round on an attribute has the last word: what it left, the dates included, is there at the end. */
  lemma LastRoundStands(g: Goal, source: KjNode, mods: KjNode, s: Shape, nm: NameMap, num: NumberMap, ok: bool,
                        stages: seq<Stage>, rounds: seq<Round>, k: nat)
    requires Merged(g, source, mods, s, nm, num, ok, stages, rounds) && k < |rounds| && !rounds[k].Passed?
    requires forall l :: k < l < |rounds| && Mods(g)[l].kind == KjObject && Mods(g)[l] in g.nm && Mods(g)[k] in g.nm
               ==> g.nm[Mods(g)[l]] != g.nm[Mods(g)[k]]
    ensures RoundOk(g.e, g.now, Mods(g)[k], stages[k], rounds[k], stages[k + 1])
    ensures var a := WorkedOn(rounds[k], Mods(g)[k]); SameAttribute(stages[k + 1], s, nm, a) && SameNumbers(stages[k + 1], num, a)
  {
    LogAt(g, stages, rounds, k);
    LogStage(g, stages, rounds, k + 1);
    hide *;
    var a := WorkedOn(rounds[k], Mods(g)[k]);
    WorkedOnThere(g, stages[k], stages[k + 1], k, rounds[k], Mods(g)[k]);
    UntouchedSince(g, stages, rounds, k + 1, |rounds|, a);
    NumbersSince(g, stages, rounds, k + 1, |rounds|, a);
  }

  lemma MergeStart(g: Goal)
    requires ShapeOk(g.s) && g.nm.Keys == g.s.kids.Keys && g.num.Keys == g.s.kids.Keys && g.e.source != g.e.mods && g.e.attrs != g.e.attrNames
    requires LiveKids(g.s, g.e.source) && Free(g.s, g.e.source) && LiveKids(g.s, g.e.mods) && Free(g.s, g.e.mods)
    requires g.e.source in g.s.kids && g.e.mods in g.s.kids && g.e.attrs in g.s.kids[g.e.source] && g.e.attrNames in g.s.kids[g.e.source]
    requires forall r :: r in g.s.kids[g.e.mods] ==> LiveKids(g.s, r)
    requires g.e.attrs in g.s.kids && forall a :: a in g.s.kids[g.e.attrs] ==> AttrOk(g.s, g.nm, a)
    ensures MergedTo(g, g.s, g.nm, 0, [], [])
  {
    assert EntityOk(g.e, g.s);
    EntityParts(g.e, g.s);
    hide EntityOk, ShapeOk, AttrOk, Distinct;
    assert [] + Mods(g)[0..] == Mods(g) && Attrs(g) + NewOnes(g, 0) == Attrs(g);
    assert g.s.kids[g.e.attrNames] + [] == g.s.kids[g.e.attrNames];
  }

  // ---- as orionldPostEntityOverwrite calls it ----

  /** Names after the dots of the first i members have been replaced. */
  ghost predicate DotsOutTo(ks: seq<KjNode>, nm: NameMap, nm': NameMap, i: nat) {
    && nm'.Keys == nm.Keys
    && (forall n :: n in nm && n !in ks ==> nm'[n] == nm[n])
    && (forall k :: 0 <= k < i <= |ks| && ks[k] in nm ==> nm'[ks[k]] == DotForEq(nm[ks[k]]))
    && (forall k :: i <= k < |ks| && ks[k] in nm ==> nm'[ks[k]] == nm[ks[k]])
  }

  lemma DotsOutNext(ks: seq<KjNode>, nm: NameMap, nm': NameMap, i: nat)
    requires DotsOutTo(ks, nm, nm', i) && i < |ks| && ks[i] in nm && Distinct(ks)
    ensures ks[i] in nm' && DotsOutTo(ks, nm, nm'[ks[i] := DotForEq(nm'[ks[i]])], i + 1)
  {
    DistinctAt(ks);
    hide Distinct, DotForEq;
  }

  /** The caller first takes the dots out of the names in the request. */
  method DotsOut(f: Forest, modTree: KjNode)
    requires f.Valid() && Live(f.shape, modTree) && modTree in f.shape.kids
    modifies f.shape.kids.Keys`name
    ensures f.Valid()
    ensures DotsOutTo(f.shape.kids[modTree], old(Names(f.shape.kids.Keys)), Names(f.shape.kids.Keys), |f.shape.kids[modTree]|)
  {
    hide *;
    ghost var s := f.shape;
    ghost var ks, nm := s.kids[modTree], Names(s.kids.Keys);
    DotsOutStart(ks, nm);
    f.ValidFacts();
    f.Start(modTree);
    KidsIn(s, modTree);
    AllNames(s.kids.Keys);
    var node := modTree.firstChild;
    ghost var i := 0;
    while node != null
      invariant f.Valid() && f.shape == s && i <= |ks| && node == if i < |ks| then ks[i] else null
      invariant DotsOutTo(ks, nm, Names(s.kids.Keys), i)
      decreases |ks| - i
    {
      f.Follow(modTree, i);
      assert ks[i] in ks;
      DotOut(f, node, ks, nm, i);
      node := node.next;
      i := i + 1;
    }
  }

  method DotOut(f: Forest, node: KjNode, ghost ks: seq<KjNode>, ghost nm: NameMap, ghost i: nat)
    requires f.Valid() && DotsOutTo(ks, nm, Names(f.shape.kids.Keys), i) && i < |ks| && ks[i] == node && Distinct(ks)
    requires node in nm && node in f.shape.kids
    modifies node`name
    ensures f.Valid() && DotsOutTo(ks, nm, Names(f.shape.kids.Keys), i + 1)
  {
    hide *;
    DotsOutNext(ks, nm, Names(f.shape.kids.Keys), i);
    NameOf(node, f.shape.kids.Keys);
    Rename(node, DotForEq(node.name), f.shape.kids.Keys);
  }

  lemma DotsOutStart(ks: seq<KjNode>, nm: NameMap)
    ensures DotsOutTo(ks, nm, nm, 0)
  {
  }

  lemma NotAMod(s: Shape, nm: NameMap, mods: KjNode, nm': NameMap, p: KjNode, n: KjNode)
    requires ShapeOk(s) && nm.Keys == s.kids.Keys && mods in s.kids && p in s.kids && p != mods && n in s.kids[p]
    requires DotsOutTo(s.kids[mods], nm, nm', |s.kids[mods]|)
    ensures n in s.kids && n in s.parent && n in nm && n in nm' && nm'[n] == nm[n]
  {
    KidsIn(s, p);
    KidsIn(s, mods);
    hide ShapeOk, Distinct, DotForEq;
  }

  lemma AttrOkRenamed(s: Shape, nm: NameMap, mods: KjNode, nm': NameMap, a: KjNode)
    requires ShapeOk(s) && nm.Keys == s.kids.Keys && mods in s.kids && a in s.kids && a != mods
    requires DotsOutTo(s.kids[mods], nm, nm', |s.kids[mods]|) && AttrOk(s, nm, a)
    ensures AttrOk(s, nm', a)
  {
    var k :| k in s.kids[a] && k in nm && nm[k] == "modDate";
    hide ShapeOk, DotsOutTo;
    NotAMod(s, nm, mods, nm', a, k);
  }

  lemma MergeableParts(s: Shape, nm: NameMap, source: KjNode, mods: KjNode)
    requires Mergeable(s, nm, source, mods)
    ensures source in s.kids && mods in s.kids && source != mods && mods !in s.parent && Live(s, mods)
    ensures forall c :: c in s.kids[source] && c in nm && nm[c] == "attrs" && c in s.kids ==> AllAttrsOk(s, nm, c)
  {
    hide AllAttrsOk;
  }

  lemma AllAttrsRenamed(s: Shape, nm: NameMap, source: KjNode, mods: KjNode, nm': NameMap, c: KjNode)
    requires ShapeOk(s) && nm.Keys == s.kids.Keys && Mergeable(s, nm, source, mods) && source in s.kids && mods in s.kids
    requires DotsOutTo(s.kids[mods], nm, nm', |s.kids[mods]|) && c in s.kids[source]
    ensures c in s.kids && c in nm && c in nm' && nm'[c] == nm[c]
    ensures forall a :: a in s.kids[c] ==> a in nm && a in nm' && nm'[a] == nm[a]
    ensures nm[c] == "attrs" ==> AllAttrsOk(s, nm', c)
  {
    MergeableParts(s, nm, source, mods);
    hide ShapeOk, DotsOutTo, Mergeable, AttrOk;
    NotAMod(s, nm, mods, nm', source, c);
    forall a | a in s.kids[c] ensures a in nm && a in nm' && nm'[a] == nm[a] && (nm[c] == "attrs" ==> AttrOk(s, nm', a)) {
      NotAMod(s, nm, mods, nm', c, a);
      if nm[c] == "attrs" {
        assert AllAttrsOk(s, nm, c);
        AttrOkRenamed(s, nm, mods, nm', a);
      }
    }
  }

  /** Only members of the request are renamed, and none has a dot afterwards. */
  lemma MergeableRenamed(s: Shape, nm: NameMap, source: KjNode, mods: KjNode, nm': NameMap)
    requires ShapeOk(s) && nm.Keys == s.kids.Keys && Mergeable(s, nm, source, mods) && mods in s.kids
    requires DotsOutTo(s.kids[mods], nm, nm', |s.kids[mods]|)
    ensures Mergeable(s, nm', source, mods)
  {
    MergeableParts(s, nm, source, mods);
    forall c | c in s.kids[source] && c in nm' && nm'[c] == "attrs" && c in s.kids ensures AllAttrsOk(s, nm', c) {
      hide *;
      AllAttrsRenamed(s, nm, source, mods, nm', c);
    }
    hide DotsOutTo, ShapeOk, AllAttrsOk;
  }

  lemma NoDots(ks: seq<KjNode>, nm: NameMap, nm': NameMap)
    requires DotsOutTo(ks, nm, nm', |ks|)
    ensures DotFree(ks, nm')
  {
    forall n | n in ks && n in nm' ensures '.' !in nm'[n] {
      var k :| 0 <= k < |ks| && ks[k] == n;
      assert nm'[ks[k]] == DotForEq(nm[ks[k]]);
    }
  }

  /** The request is merged with its dots taken out. If attrs and attrNames agreed and no key had a dot, that is so
      again afterwards, for every request, and also when the merge stops half-way. */
  method MergeRequest(f: Forest, sourceTree: KjNode, modTree: KjNode, now: int) returns (ok: bool, ghost e: Entity)
    requires f.Valid() && Mergeable(f.shape, Names(f.shape.kids.Keys), sourceTree, modTree)
    modifies f`shape, f.shape.kids.Keys`next, f.shape.kids.Keys`firstChild, f.shape.kids.Keys`lastChild,
             f.shape.kids.Keys`name, f.shape.kids.Keys`number
    ensures f.Valid()
    ensures HasParts(old(f.shape), old(Names(f.shape.kids.Keys)), sourceTree) ==>
      && e.source == sourceTree && e.mods == modTree && PartsOf(old(f.shape), old(Names(f.shape.kids.Keys)), e)
      && (Agreed(old(f.shape), old(Names(f.shape.kids.Keys)), e) ==> Agreed(f.shape, Names(f.shape.kids.Keys), e))
  {
    hide *;
    ghost var s, nm, num := f.shape, Names(f.shape.kids.Keys), Numbers(f.shape.kids.Keys);
    MergeableParts(s, nm, sourceTree, modTree);
    f.ValidFacts();
    AllNames(s.kids.Keys);
    DotsOut(f, modTree);
    ghost var nm1 := Names(s.kids.Keys);
    MergeableRenamed(s, nm, sourceTree, modTree, nm1);
    NoDots(s.kids[modTree], nm, nm1);
    PartsRenamed(s, nm, sourceTree, modTree, nm1);
    ghost var stages, rounds;
    ok, e, stages, rounds := MergeTree(f, sourceTree, modTree, now);
    if HasParts(s, nm, sourceTree) {
      Conclude(Goal(e, s, nm1, num, now), nm, sourceTree, modTree, f.shape, Names(f.shape.kids.Keys), Numbers(f.shape.kids.Keys), ok, stages, rounds);
    }
  }

  /** Agreement, with keys that have no dot. */
  ghost predicate Agreed(s: Shape, nm: NameMap, e: Entity) {
    Agree(s, nm, e.attrs, e.attrNames) && DotFree(s.kids[e.attrs], nm)
  }

  ghost predicate PartsOf(s: Shape, nm: NameMap, e: Entity) {
    && e.source in s.kids && e.attrs in s.kids[e.source] && e.attrNames in s.kids[e.source]
    && e.attrs in nm && nm[e.attrs] == "attrs" && e.attrNames in nm && nm[e.attrNames] == "attrNames"
  }

  lemma PartsRenamed(s: Shape, nm: NameMap, source: KjNode, mods: KjNode, nm': NameMap)
    requires ShapeOk(s) && nm.Keys == s.kids.Keys && Mergeable(s, nm, source, mods) && source in s.kids && mods in s.kids
    requires DotsOutTo(s.kids[mods], nm, nm', |s.kids[mods]|)
    ensures HasParts(s, nm, source) <==> HasParts(s, nm', source)
  {
    forall c | c in s.kids[source] ensures c in nm && c in nm' && nm'[c] == nm[c] {
      AllAttrsRenamed(s, nm, source, mods, nm', c);
    }
    hide DotsOutTo, ShapeOk, Mergeable;
  }

  lemma AgreeRenamed(s: Shape, nm: NameMap, nm': NameMap, attrs: KjNode, attrNames: KjNode)
    requires Agree(s, nm, attrs, attrNames) && forall a :: a in s.kids[attrs] ==> a in nm && a in nm' && nm'[a] == nm[a]
    ensures Agree(s, nm', attrs, attrNames)
  {
    hide DistinctNames;
    DistinctNamesSame(s.kids[attrs], nm, nm');
    assert forall i :: 0 <= i < |s.kids[attrs]| ==> s.kids[attrs][i] in s.kids[attrs];
  }

  lemma Conclude(g: Goal, nm: NameMap, source: KjNode, mods: KjNode, t: Shape, nm': NameMap, num: NumberMap, ok: bool, stages: seq<Stage>, rounds: seq<Round>)
    requires ShapeOk(g.s) && nm.Keys == g.s.kids.Keys && Mergeable(g.s, nm, source, mods) && mods in g.s.kids
    requires DotsOutTo(g.s.kids[mods], nm, g.nm, |g.s.kids[mods]|) && DotFree(g.s.kids[mods], g.nm)
    requires Merged(g, source, mods, t, nm', num, ok, stages, rounds)
    ensures g.e.source == source && g.e.mods == mods && PartsOf(g.s, nm, g.e)
    ensures Agreed(g.s, nm, g.e) ==> Agreed(t, nm', g.e)
  {
    MergedParts(g, source, mods, t, nm', num, ok, stages, rounds);
    hide *;
    var b := stages[|rounds|];
    AllAttrsRenamed(g.s, nm, source, mods, g.nm, g.e.attrs);
    AllAttrsRenamed(g.s, nm, source, mods, g.nm, g.e.attrNames);
    PartsOfIs(g.s, nm, g.e);
    AgreedIs(g.s, nm, g.e);
    if Agreed(g.s, nm, g.e) {
      AgreeRenamed(g.s, nm, g.nm, g.e.attrs, g.e.attrNames);
      AgreementKept(g, t, nm', |rounds|, b.kept, b.names);
      DotFreeRenamed(Attrs(g), nm, g.nm);
      DotFreeKept(g, t, nm', |rounds|, b.kept, b.names);
      AgreedIs(t, nm', g.e);
    }
  }

  lemma MergedParts(g: Goal, source: KjNode, mods: KjNode, t: Shape, nm': NameMap, num: NumberMap, ok: bool, stages: seq<Stage>, rounds: seq<Round>)
    requires Merged(g, source, mods, t, nm', num, ok, stages, rounds)
    ensures g.e.source == source && g.e.mods == mods && |stages| == |rounds| + 1
    ensures MergedTo(g, t, nm', |rounds|, stages[|rounds|].kept, stages[|rounds|].names)
    ensures g.e.source in g.s.kids && g.e.mods in g.s.kids && g.e.attrs in g.s.kids && g.e.attrNames in g.s.kids && g.e.attrs in t.kids
    ensures Attrs(g) == g.s.kids[g.e.attrs] && Mods(g) == g.s.kids[g.e.mods]
    ensures g.e.attrs in g.s.kids[g.e.source] && g.e.attrNames in g.s.kids[g.e.source]
    ensures g.e.attrs in g.nm && g.nm[g.e.attrs] == "attrs" && g.e.attrNames in g.nm && g.nm[g.e.attrNames] == "attrNames"
  {
    LogLast(g, stages, rounds);
    hide Log, NewOnes, AttrOk, LiveKids, DotForms, SameNames, ShapeOk, Bad;
  }

  lemma PartsOfIs(s: Shape, nm: NameMap, e: Entity)
    requires e.source in s.kids && e.attrs in s.kids[e.source] && e.attrNames in s.kids[e.source]
    requires e.attrs in nm && nm[e.attrs] == "attrs" && e.attrNames in nm && nm[e.attrNames] == "attrNames"
    ensures PartsOf(s, nm, e)
  {
  }

  lemma AgreedIs(s: Shape, nm: NameMap, e: Entity)
    requires e.attrs in s.kids
    ensures Agreed(s, nm, e) <==> Agree(s, nm, e.attrs, e.attrNames) && DotFree(s.kids[e.attrs], nm)
  {
  }

  lemma DotFreeRenamed(ks: seq<KjNode>, nm: NameMap, nm': NameMap)
    requires DotFree(ks, nm) && forall a :: a in ks ==> a in nm && a in nm' && nm'[a] == nm[a]
    ensures DotFree(ks, nm')
  {
  }
}
