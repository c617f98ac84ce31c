/** What merging the members of an update into an attribute comes to, on lists of nodes and their names. */
module MergeResult {
  import opened Sequences
  import opened Kjson
  import opened AttributeMetadata
  import opened Dots

  /** Before: the members of the attribute, all names, the members of the update, and the lists md and mdNames. */
  datatype Plan = Plan(top: seq<KjNode>, names: NameMap, members: seq<KjNode>, md: seq<KjNode>, mdNames: seq<KjNode>)

  /** Meanwhile: the members of the attribute, all names, md (if there is one) and mdNames, and what is in them. */
  datatype Layout = Layout(top: seq<KjNode>, names: NameMap, mdNode: KjNode?, namesNode: KjNode, md: seq<KjNode>, mdNames: seq<KjNode>)

  /** type, value, creDate and modDate always stand right under the attribute. */
  predicate Fixed(name: string) {
    name == "type" || name == "value" || name == "creDate" || name == "modDate"
  }

  ghost predicate PlanOk(p: Plan) {
    && (forall n :: n in p.top ==> n in p.names) && (forall n :: n in p.members ==> n in p.names)
    && Distinct(p.members)
  }

  ghost function NewName(p: Plan, k: nat): string
    requires k < |p.members| && PlanOk(p)
  {
    assert p.members[k] in p.members;
    FinalName(p.names[p.members[k]])
  }

  /** A member that goes right under the attribute: a fixed name, or one that stands there already. */
  ghost predicate OnTop(p: Plan, k: nat)
    requires k < |p.members| && PlanOk(p)
  {
    Fixed(NewName(p, k)) || NamedBy(p.top, p.names, NewName(p, k))
  }

  /** No member of the update is called like one of the two lists. */
  ghost predicate NoListNames(p: Plan)
    requires PlanOk(p)
  {
    forall k :: 0 <= k < |p.members| ==> NewName(p, k) != "md" && NewName(p, k) != "mdNames"
  }

  /** The members that become metadata. */
  ghost function ToMd(p: Plan, i: nat): seq<nat>
    requires PlanOk(p) && i <= |p.members|
    ensures forall x :: 0 <= x < |ToMd(p, i)| ==> ToMd(p, i)[x] < i
  {
    if i == 0 then [] else ToMd(p, i - 1) + if OnTop(p, i - 1) then [] else [i - 1]
  }

  ghost predicate LastOfName(p: Plan, k: nat, i: nat)
    requires PlanOk(p) && i <= |p.members|
  {
    k < i && forall l :: k < l < i ==> NewName(p, l) != NewName(p, k)
  }

  ghost predicate Known(p: Plan, name: string) {
    Fixed(name) || NamedBy(p.top, p.names, name) || name == "md" || name == "mdNames"
  }

  // ---- the parts of the outcome ----

  /** Members that are still to come have their names, and are not in the list. */
  ghost predicate Waiting(p: Plan, a: Layout, i: nat)
    requires PlanOk(p)
  {
    && (forall n :: n in a.top ==> n in a.names)
    && (forall k :: 0 <= k < |p.members| ==> p.members[k] in a.names)
    && (forall k :: i <= k < |p.members| ==> a.names[p.members[k]] == p.names[p.members[k]] && p.members[k] !in a.top)
  }

  /** Names right under the attribute: the old ones are still there, and only few can be new. */
  ghost predicate NamesKnown(p: Plan, a: Layout)
    requires PlanOk(p)
  {
    && (forall t :: t in p.top ==> NamedBy(a.top, a.names, p.names[t]))
    && (forall c :: c in a.top && c in a.names ==> Known(p, a.names[c]))
    && (a.mdNode == null ==> !NamedBy(a.top, a.names, "md"))
    && (DistinctNames(p.top, p.names) ==> DistinctNames(a.top, a.names))
  }

  /** The last member of each name that belongs there stands right under the attribute. */
  ghost predicate Overwritten(p: Plan, a: Layout, i: nat)
    requires PlanOk(p) && i <= |p.members|
  {
    forall k :: 0 <= k < i && OnTop(p, k) && LastOfName(p, k, i) ==>
      p.members[k] in a.top && p.members[k] in a.names && a.names[p.members[k]] == NewName(p, k)
  }

  /** The others are in md, in order and without dots in their names; and their names with dots are in mdNames. */
  ghost predicate InMd(p: Plan, a: Layout, i: nat)
    requires PlanOk(p) && i <= |p.members|
  {
    var ks := ToMd(p, i);
    && |a.md| == |p.md| + |ks| && p.md <= a.md && |a.mdNames| == |p.mdNames| + |ks| && p.mdNames <= a.mdNames
    && forall x :: 0 <= x < |ks| ==> EntryOk(p, a, ks[x], x)
  }

  /** Member k is entry x of what was added to md and mdNames. */
  ghost predicate EntryOk(p: Plan, a: Layout, k: nat, x: nat)
    requires PlanOk(p) && k < |p.members|
  {
    && |p.md| + x < |a.md| && a.md[|p.md| + x] == p.members[k]
    && p.members[k] in a.names && a.names[p.members[k]] == DotForEq(NewName(p, k))
    && |p.mdNames| + x < |a.mdNames| && a.mdNames[|p.mdNames| + x].text == NewName(p, k)
  }

  /** A member of the attribute whose name no member of the update has is still there. */
  ghost predicate Kept(p: Plan, a: Layout, i: nat)
    requires PlanOk(p) && i <= |p.members|
  {
    forall t :: t in p.top && (forall k :: 0 <= k < i ==> NewName(p, k) != p.names[t]) ==>
      t in a.top && t in a.names && a.names[t] == p.names[t]
  }

  /** The two lists are members of the attribute. */
  ghost predicate ListsThere(a: Layout) {
    && (a.mdNode != null ==> a.mdNode in a.top && a.mdNode in a.names && a.names[a.mdNode] == "md")
    && a.namesNode in a.top && a.namesNode in a.names && a.names[a.namesNode] == "mdNames"
  }

  ghost predicate Outcome(p: Plan, a: Layout, i: nat) {
    && PlanOk(p) && i <= |p.members|
    && Waiting(p, a, i) && NamesKnown(p, a) && Overwritten(p, a, i) && Kept(p, a, i) && (NoListNames(p) ==> InMd(p, a, i) && ListsThere(a))
  }

  // ---- the two kinds of steps ----

  ghost predicate FirstNamed(ns: seq<KjNode>, nm: NameMap, name: string, j: nat) {
    && j <= |ns| && (forall k :: 0 <= k < j ==> ns[k] in nm && nm[ns[k]] != name)
    && (j < |ns| ==> ns[j] in nm && nm[ns[j]] == name)
  }

  /** Member c takes the place of the one with its name, or joins at the end. */
  ghost predicate TopStep(a: Layout, c: KjNode, j: nat, b: Layout) {
    && c in a.names && FirstNamed(a.top, a.names, FinalName(a.names[c]), j)
    && (j < |a.top| || Fixed(FinalName(a.names[c])))
    && b == a.(top := (if j < |a.top| then Dropped(a.top, j) else a.top) + [c], names := a.names[c := FinalName(a.names[c])])
  }

  /** Member c becomes metadata; md is created if need be. */
  ghost predicate MdStep(a: Layout, c: KjNode, newMd: KjNode?, n: KjNode, b: Layout) {
    && c in a.names && FirstNamed(a.top, a.names, FinalName(a.names[c]), |a.top|) && !Fixed(FinalName(a.names[c]))
    && (newMd == null <==> a.mdNode != null) && n !in a.names && (newMd != null ==> newMd !in a.names && newMd != n)
    && n.text == FinalName(a.names[c])
    && b == Layout(a.top + (if newMd == null then [] else [newMd]),
                   (if newMd == null then a.names else a.names[newMd := "md"])[c := DotForEq(FinalName(a.names[c]))][n := ""],
                   if newMd == null then a.mdNode else newMd, a.namesNode, a.md + [c], a.mdNames + [n])
  }

  lemma FoundIff(ns: seq<KjNode>, nm: NameMap, name: string, j: nat)
    requires FirstNamed(ns, nm, name, j)
    ensures NamedBy(ns, nm, name) <==> j < |ns|
  {
    if j < |ns| {
      assert ns[j] in ns;
    }
  }

  /** Which of the two steps is taken is decided by the plan. */
  lemma StepKind(p: Plan, a: Layout, i: nat, j: nat)
    requires Outcome(p, a, i) && i < |p.members| && p.members[i] in a.names
    requires FirstNamed(a.top, a.names, FinalName(a.names[p.members[i]]), j)
    ensures FinalName(a.names[p.members[i]]) == NewName(p, i)
    ensures OnTop(p, i) ==> j < |a.top| || Fixed(NewName(p, i))
    ensures j < |a.top| || Fixed(NewName(p, i)) ==> OnTop(p, i) || NewName(p, i) == "md" || NewName(p, i) == "mdNames"
  {
    FoundIff(a.top, a.names, NewName(p, i), j);
    hide Overwritten, InMd, Fixed, FinalName;
    if NamedBy(p.top, p.names, NewName(p, i)) {
      var t :| t in p.top && t in p.names && p.names[t] == NewName(p, i);
    }
    if j < |a.top| {
      assert a.top[j] in a.top;
    }
  }

  lemma DroppedIn(ns: seq<KjNode>, j: nat, n: KjNode)
    requires j < |ns|
    ensures n in Dropped(ns, j) ==> n in ns
    ensures n in ns && n != ns[j] ==> n in Dropped(ns, j)
  {
    if n in ns && n != ns[j] {
      var k :| 0 <= k < |ns| && ns[k] == n;
      assert Dropped(ns, j)[if k < j then k else k - 1] == n;
    }
  }

  /** After a step on top: c is there, and everything else but the one with its name. */
  lemma TopStepTop(a: Layout, c: KjNode, j: nat, b: Layout)
    requires TopStep(a, c, j, b)
    ensures c in b.top && c in b.names && b.names[c] == FinalName(a.names[c])
    ensures forall n :: n in b.top ==> n in a.top || n == c
    ensures forall n :: n in a.top && n in a.names && a.names[n] != FinalName(a.names[c]) ==> n in b.top
    ensures forall n :: n in a.names && n != c ==> n in b.names && b.names[n] == a.names[n]
    ensures j < |a.top| ==> NamedBy(a.top, a.names, FinalName(a.names[c]))
  {
    assert b.top[|b.top| - 1] == c;
    FoundIff(a.top, a.names, FinalName(a.names[c]), j);
    hide Dropped, FinalName, Fixed, NamedBy;
    if j < |a.top| {
      forall n ensures (n in Dropped(a.top, j) ==> n in a.top) && (n in a.top && n != a.top[j] ==> n in Dropped(a.top, j)) {
        DroppedIn(a.top, j, n);
      }
    }
  }

  lemma WaitingTop(p: Plan, a: Layout, i: nat, j: nat, b: Layout)
    requires PlanOk(p) && i < |p.members| && Waiting(p, a, i) && TopStep(a, p.members[i], j, b)
    ensures Waiting(p, b, i + 1)
  {
    TopStepTop(a, p.members[i], j, b);
    DistinctAt(p.members);
    hide TopStep, Distinct;
  }

  lemma NamedAfter(a: Layout, c: KjNode, j: nat, b: Layout, name: string)
    requires TopStep(a, c, j, b) && c !in a.top && NamedBy(a.top, a.names, name)
    ensures NamedBy(b.top, b.names, name)
  {
    TopStepTop(a, c, j, b);
    hide TopStep, FinalName;
    var w :| w in a.top && w in a.names && a.names[w] == name;
    if name == FinalName(a.names[c]) {
      assert c in b.top && b.names[c] == name;
    } else {
      assert w in b.top && w != c;
    }
  }

  lemma DistinctTop(a: Layout, c: KjNode, j: nat, b: Layout)
    requires TopStep(a, c, j, b) && c !in a.top && DistinctNames(a.top, a.names)
    ensures DistinctNames(b.top, b.names)
  {
    TopStepTop(a, c, j, b);
    var x := FinalName(a.names[c]);
    var rest := if j < |a.top| then Dropped(a.top, j) else a.top;
    assert b.top == rest + [c] && b.names == a.names[c := x];
    FoundIff(a.top, a.names, x, j);
    if j < |a.top| {
      DistinctDropped(a.top, a.names, j);
    }
    assert forall n :: n in rest ==> n in a.top by {
      if j < |a.top| {
        forall n | n in rest ensures n in a.top {
          DroppedIn(a.top, j, n);
        }
      }
    }
    hide *;
    RestPlus(rest, c, a.names, x);
  }

  lemma RestPlus(rest: seq<KjNode>, c: KjNode, nm: NameMap, x: string)
    requires DistinctNames(rest, nm) && !NamedBy(rest, nm, x) && c !in rest
    ensures DistinctNames(rest + [c], nm[c := x])
  {
    var nm' := nm[c := x];
    DistinctNamesSame(rest, nm, nm');
    assert !NamedBy(rest, nm', x);
    NewNameDistinct(rest, c, nm');
  }

  lemma DistinctDropped(ns: seq<KjNode>, nm: NameMap, j: nat)
    requires DistinctNames(ns, nm) && j < |ns|
    ensures DistinctNames(Dropped(ns, j), nm) && ns[j] in nm && !NamedBy(Dropped(ns, j), nm, nm[ns[j]])
  {
    var r := Dropped(ns, j);
    forall k | 0 <= k < |r| ensures r[k] == ns[if k < j then k else k + 1] {}
    assert ns[j] in ns;
    forall n | n in r ensures n in nm && nm[n] != nm[ns[j]] {
      var k :| 0 <= k < |r| && r[k] == n;
    }
  }

  lemma NamesTop(p: Plan, a: Layout, i: nat, j: nat, b: Layout)
    requires Outcome(p, a, i) && i < |p.members| && TopStep(a, p.members[i], j, b)
    ensures NamesKnown(p, b)
  {
    var c := p.members[i];
    TopStepTop(a, c, j, b);
    hide Overwritten, InMd, NoListNames;
    var x := FinalName(a.names[c]);
    assert c !in a.top;
    forall t | t in p.top ensures NamedBy(b.top, b.names, p.names[t]) {
      NamedAfter(a, c, j, b, p.names[t]);
    }
    if DistinctNames(p.top, p.names) {
      DistinctTop(a, c, j, b);
    }
    assert Known(p, x) && (a.mdNode == null ==> x != "md") by {
      hide DistinctNames, FinalName;
      if j < |a.top| {
        assert a.top[j] in a.top;
      }
    }
    assert b.mdNode == a.mdNode;
    hide TopStep, DistinctNames, Known, FinalName, Waiting, Distinct;
    forall d | d in b.top && d in b.names ensures Known(p, b.names[d]) && (a.mdNode == null ==> b.names[d] != "md") {
      assert d == c || (d in a.top && b.names[d] == a.names[d]);
    }
  }

  lemma OverwrittenTop(p: Plan, a: Layout, i: nat, j: nat, b: Layout)
    requires PlanOk(p) && Outcome(p, a, i) && i < |p.members| && TopStep(a, p.members[i], j, b)
    ensures Overwritten(p, b, i + 1)
  {
    hide *;
    forall k | 0 <= k < i + 1 && OnTop(p, k) && LastOfName(p, k, i + 1)
      ensures p.members[k] in b.top && p.members[k] in b.names && b.names[p.members[k]] == NewName(p, k)
    {
      if k < i {
        OverwrittenKept(p, a, i, j, b, k);
      } else {
        OverwrittenNew(p, a, i, j, b);
      }
    }
    OverwrittenIs(p, b, i + 1);
  }

  lemma OverwrittenIs(p: Plan, b: Layout, i: nat)
    requires PlanOk(p) && i <= |p.members|
    requires forall k :: 0 <= k < i && OnTop(p, k) && LastOfName(p, k, i) ==>
      p.members[k] in b.top && p.members[k] in b.names && b.names[p.members[k]] == NewName(p, k)
    ensures Overwritten(p, b, i)
  {
    hide OnTop, LastOfName, NewName;
  }

  lemma OverwrittenNew(p: Plan, a: Layout, i: nat, j: nat, b: Layout)
    requires Outcome(p, a, i) && i < |p.members| && TopStep(a, p.members[i], j, b)
    ensures p.members[i] in b.top && p.members[i] in b.names && b.names[p.members[i]] == NewName(p, i)
  {
    TopStepTop(a, p.members[i], j, b);
    StepKind(p, a, i, j);
    hide TopStep, Outcome, FinalName, NewName, OnTop, Fixed;
  }

  lemma OverwrittenKept(p: Plan, a: Layout, i: nat, j: nat, b: Layout, k: nat)
    requires Outcome(p, a, i) && k < i < |p.members| && OnTop(p, k) && LastOfName(p, k, i + 1) && TopStep(a, p.members[i], j, b)
    ensures p.members[k] in b.top && p.members[k] in b.names && b.names[p.members[k]] == NewName(p, k)
  {
    assert LastOfName(p, k, i) && NewName(p, k) != NewName(p, i) && p.members[k] != p.members[i];
    OverwrittenAt(p, a, i, k);
    TopStepTop(a, p.members[i], j, b);
    StepKind(p, a, i, j);
    hide TopStep, Outcome, FinalName, NewName, OnTop, LastOfName, Fixed;
  }

  lemma OverwrittenAt(p: Plan, a: Layout, i: nat, k: nat)
    requires Outcome(p, a, i) && k < i && OnTop(p, k) && LastOfName(p, k, i)
    ensures p.members[k] in a.top && p.members[k] in a.names && a.names[p.members[k]] == NewName(p, k)
  {
    hide InMd, NoListNames, NamesKnown, Waiting, NewName, OnTop, LastOfName;
  }

  lemma ToMdNext(p: Plan, i: nat)
    requires PlanOk(p) && i < |p.members|
    ensures ToMd(p, i + 1) == ToMd(p, i) + if OnTop(p, i) then [] else [i]
  {
  }

  lemma InMdTop(p: Plan, a: Layout, i: nat, j: nat, b: Layout)
    requires Outcome(p, a, i) && i < |p.members| && TopStep(a, p.members[i], j, b) && NoListNames(p)
    ensures InMd(p, b, i + 1)
  {
    StepKind(p, a, i, j);
    ToMdNext(p, i);
    TopStepTop(a, p.members[i], j, b);
    DistinctAt(p.members);
    assert ToMd(p, i + 1) == ToMd(p, i) && b.md == a.md && b.mdNames == a.mdNames;
    hide TopStep, NamesKnown, Overwritten, Waiting, Distinct, OnTop, FinalName, NewName, ToMd, EntryOk, NoListNames;
    var ks := ToMd(p, i);
    forall x | 0 <= x < |ks| ensures EntryOk(p, b, ks[x], x) {
      EntryKept(p, a, ks[x], x, b);
    }
  }

  lemma KeptAt(p: Plan, a: Layout, i: nat, t: KjNode)
    requires Outcome(p, a, i) && i < |p.members| && t in p.top && forall k :: 0 <= k < i ==> NewName(p, k) != p.names[t]
    ensures t in a.top && t in a.names && a.names[t] == p.names[t] && t != p.members[i]
    ensures p.members[i] in a.names && FinalName(a.names[p.members[i]]) == NewName(p, i)
  {
    hide Overwritten, InMd, NoListNames, NamesKnown, FinalName, Distinct;
  }

  lemma KeptTop(p: Plan, a: Layout, i: nat, j: nat, b: Layout)
    requires PlanOk(p) && Outcome(p, a, i) && i < |p.members| && TopStep(a, p.members[i], j, b)
    ensures Kept(p, b, i + 1)
  {
    TopStepTop(a, p.members[i], j, b);
    hide TopStep, Outcome, NewName, FinalName, PlanOk;
    forall t | t in p.top && forall k :: 0 <= k < i + 1 ==> NewName(p, k) != p.names[t]
      ensures t in b.top && t in b.names && b.names[t] == p.names[t]
    {
      KeptAt(p, a, i, t);
    }
  }

  lemma KeptMd(p: Plan, a: Layout, i: nat, newMd: KjNode?, n: KjNode, b: Layout)
    requires PlanOk(p) && Outcome(p, a, i) && i < |p.members| && MdStep(a, p.members[i], newMd, n, b)
    ensures Kept(p, b, i + 1)
  {
    MdStepTop(a, p.members[i], newMd, n, b);
    hide MdStep, Outcome, NewName, FinalName, DotForEq, PlanOk;
    forall t | t in p.top && forall k :: 0 <= k < i + 1 ==> NewName(p, k) != p.names[t]
      ensures t in b.top && t in b.names && b.names[t] == p.names[t]
    {
      KeptAt(p, a, i, t);
    }
  }

  lemma ListsTop(p: Plan, a: Layout, i: nat, j: nat, b: Layout)
    requires Outcome(p, a, i) && i < |p.members| && TopStep(a, p.members[i], j, b) && NoListNames(p)
    ensures ListsThere(b)
  {
    TopStepTop(a, p.members[i], j, b);
    StepKind(p, a, i, j);
    assert p.members[i] !in a.top && b.mdNode == a.mdNode && b.namesNode == a.namesNode;
    hide TopStep, NamesKnown, Overwritten, Kept, Waiting, Distinct, OnTop, FinalName, NewName, InMd;
  }

  lemma ListsMd(p: Plan, a: Layout, i: nat, newMd: KjNode?, n: KjNode, b: Layout)
    requires Outcome(p, a, i) && i < |p.members| && MdStep(a, p.members[i], newMd, n, b) && NoListNames(p)
    ensures ListsThere(b)
  {
    MdStepTop(a, p.members[i], newMd, n, b);
    assert p.members[i] !in a.top;
    hide NamesKnown, Overwritten, Kept, Waiting, Distinct, OnTop, FinalName, NewName, InMd, FirstNamed, Fixed, DotForEq, NoListNames;
    if newMd != null {
      assert b.top[|a.top|] == newMd;
    }
  }

  /** A step on top. */
  lemma OutcomeTop(p: Plan, a: Layout, i: nat, j: nat, b: Layout)
    requires Outcome(p, a, i) && i < |p.members| && TopStep(a, p.members[i], j, b)
    ensures Outcome(p, b, i + 1)
  {
    WaitingTop(p, a, i, j, b);
    NamesTop(p, a, i, j, b);
    OverwrittenTop(p, a, i, j, b);
    KeptTop(p, a, i, j, b);
    if NoListNames(p) {
      InMdTop(p, a, i, j, b);
      ListsTop(p, a, i, j, b);
    }
    hide TopStep, NamesKnown, Overwritten, Kept, Waiting, InMd, ListsThere, NoListNames, PlanOk;
  }

  /** After a metadata step the list has grown at most by md, and only c has another name. */
  lemma MdStepTop(a: Layout, c: KjNode, newMd: KjNode?, n: KjNode, b: Layout)
    requires MdStep(a, c, newMd, n, b)
    ensures forall x :: x in a.top ==> x in b.top
    ensures forall x :: x in b.top ==> x in a.top || (x == newMd && x !in a.names && x in b.names && b.names[x] == "md" && a.mdNode == null)
    ensures forall x :: x in a.names ==> x in b.names && (x != c ==> b.names[x] == a.names[x])
    ensures b.names[c] == DotForEq(FinalName(a.names[c])) && b.mdNode != null
  {
    hide FinalName, Fixed, FirstNamed;
  }

  lemma WaitingMd(p: Plan, a: Layout, i: nat, newMd: KjNode?, n: KjNode, b: Layout)
    requires PlanOk(p) && i < |p.members| && Waiting(p, a, i) && MdStep(a, p.members[i], newMd, n, b)
    ensures Waiting(p, b, i + 1)
  {
    MdStepTop(a, p.members[i], newMd, n, b);
    DistinctAt(p.members);
    hide MdStep, Distinct, FinalName;
  }

  lemma DistinctMd(a: Layout, c: KjNode, newMd: KjNode?, n: KjNode, b: Layout)
    requires MdStep(a, c, newMd, n, b) && c !in a.top && DistinctNames(a.top, a.names) && (a.mdNode == null ==> !NamedBy(a.top, a.names, "md"))
    ensures DistinctNames(b.top, b.names)
  {
    MdStepTop(a, c, newMd, n, b);
    assert forall x :: x in a.top ==> x in a.names && b.names[x] == a.names[x] by {
      hide MdStep, FinalName;
    }
    hide FinalName, Fixed, FirstNamed;
    DistinctNamesSame(a.top, a.names, b.names);
    if newMd == null {
      assert b.top == a.top;
    } else {
      assert b.top == a.top + [newMd] && b.names[newMd] == "md";
      assert !NamedBy(a.top, b.names, "md");
      hide MdStep, DistinctNames, NamedBy;
      NewNameDistinct(a.top, newMd, b.names);
    }
  }

  lemma NamesMd(p: Plan, a: Layout, i: nat, newMd: KjNode?, n: KjNode, b: Layout)
    requires Outcome(p, a, i) && i < |p.members| && MdStep(a, p.members[i], newMd, n, b)
    ensures NamesKnown(p, b)
  {
    var c := p.members[i];
    MdStepTop(a, c, newMd, n, b);
    hide Overwritten, InMd, NoListNames;
    assert c !in a.top;
    if DistinctNames(p.top, p.names) {
      DistinctMd(a, c, newMd, n, b);
    }
    hide MdStep, DistinctNames, FinalName, Distinct;
    forall t | t in p.top ensures NamedBy(b.top, b.names, p.names[t]) {
      var w :| w in a.top && w in a.names && a.names[w] == p.names[t];
      assert w in b.top && b.names[w] == a.names[w];
    }
    forall d | d in b.top && d in b.names ensures Known(p, b.names[d]) {
      assert d in a.top ==> d in a.names && Known(p, a.names[d]) && b.names[d] == a.names[d];
    }
  }

  lemma OverwrittenMd(p: Plan, a: Layout, i: nat, newMd: KjNode?, n: KjNode, b: Layout)
    requires Outcome(p, a, i) && i < |p.members| && MdStep(a, p.members[i], newMd, n, b)
    ensures Overwritten(p, b, i + 1)
  {
    var c := p.members[i];
    MdStepTop(a, c, newMd, n, b);
    StepKind(p, a, i, |a.top|);
    DistinctAt(p.members);
    assert !OnTop(p, i);
    hide MdStep, InMd, NoListNames, NamesKnown, Distinct, OnTop, FinalName, NewName;
    forall k | 0 <= k < i + 1 && OnTop(p, k) && LastOfName(p, k, i + 1)
      ensures p.members[k] in b.top && p.members[k] in b.names && b.names[p.members[k]] == NewName(p, k)
    {
      assert k < i && LastOfName(p, k, i) && p.members[k] != c;
    }
  }

  lemma InMdMd(p: Plan, a: Layout, i: nat, newMd: KjNode?, n: KjNode, b: Layout)
    requires Outcome(p, a, i) && i < |p.members| && MdStep(a, p.members[i], newMd, n, b) && NoListNames(p)
    ensures InMd(p, b, i + 1)
  {
    var c := p.members[i];
    StepKind(p, a, i, |a.top|);
    ToMdNext(p, i);
    MdStepTop(a, c, newMd, n, b);
    DistinctAt(p.members);
    assert !OnTop(p, i) && b.md == a.md + [c] && b.mdNames == a.mdNames + [n] && n.text == NewName(p, i);
    assert c in b.names && b.names[c] == DotForEq(NewName(p, i));
    hide MdStep, NamesKnown, Overwritten, Waiting, Distinct, OnTop, FinalName, NewName, ToMd, DotForEq, PlanOk, EntryOk, NoListNames;
    var ks, ks' := ToMd(p, i), ToMd(p, i + 1);
    forall x | 0 <= x < |ks'| ensures EntryOk(p, b, ks'[x], x) {
      if x < |ks| {
        EntryKept(p, a, ks[x], x, b);
      } else {
        EntryNew(p, a, i, x, n, b);
      }
    }
  }

  lemma EntryKept(p: Plan, a: Layout, k: nat, x: nat, b: Layout)
    requires PlanOk(p) && k < |p.members| && EntryOk(p, a, k, x) && a.md <= b.md && a.mdNames <= b.mdNames
    requires p.members[k] in a.names ==> p.members[k] in b.names && b.names[p.members[k]] == a.names[p.members[k]]
    ensures EntryOk(p, b, k, x)
  {
    hide NewName, PlanOk, DotForEq;
  }

  lemma EntryNew(p: Plan, a: Layout, i: nat, x: nat, n: KjNode, b: Layout)
    requires PlanOk(p) && i < |p.members| && |a.md| == |p.md| + x && |a.mdNames| == |p.mdNames| + x
    requires b.md == a.md + [p.members[i]] && b.mdNames == a.mdNames + [n] && n.text == NewName(p, i)
    requires p.members[i] in b.names && b.names[p.members[i]] == DotForEq(NewName(p, i))
    ensures EntryOk(p, b, i, x)
  {
    hide NewName, PlanOk, DotForEq;
  }

  /** A metadata step. */
  lemma OutcomeMd(p: Plan, a: Layout, i: nat, newMd: KjNode?, n: KjNode, b: Layout)
    requires Outcome(p, a, i) && i < |p.members| && MdStep(a, p.members[i], newMd, n, b)
    ensures Outcome(p, b, i + 1)
  {
    WaitingMd(p, a, i, newMd, n, b);
    NamesMd(p, a, i, newMd, n, b);
    OverwrittenMd(p, a, i, newMd, n, b);
    KeptMd(p, a, i, newMd, n, b);
    if NoListNames(p) {
      InMdMd(p, a, i, newMd, n, b);
      ListsMd(p, a, i, newMd, n, b);
    }
    hide MdStep, NamesKnown, Overwritten, Kept, Waiting, InMd, ListsThere, NoListNames, PlanOk;
  }

  /** Before the first member; mdNames may just have been created. */
  lemma OutcomeStart(p: Plan, a: Layout, newMdNames: KjNode?)
    requires PlanOk(p) && (forall k :: 0 <= k < |p.members| ==> p.members[k] !in p.top)
    requires newMdNames != null ==> newMdNames !in p.names && p.mdNames == [] && !NamedBy(p.top, p.names, "mdNames")
    requires a.mdNode == null ==> !NamedBy(p.top, p.names, "md")
    requires a.mdNode != null ==> a.mdNode in p.top && a.mdNode in p.names && p.names[a.mdNode] == "md"
    requires newMdNames == null ==> a.namesNode in p.top && a.namesNode in p.names && p.names[a.namesNode] == "mdNames"
    requires newMdNames != null ==> a.namesNode == newMdNames
    requires a.top == p.top + (if newMdNames == null then [] else [newMdNames])
    requires a.names == if newMdNames == null then p.names else p.names[newMdNames := "mdNames"]
    requires a.md == p.md && a.mdNames == p.mdNames
    ensures Outcome(p, a, 0)
  {
    NamesStart(p, a, newMdNames);
    hide NamesKnown, DistinctNames, Distinct;
    assert forall k :: 0 <= k < |p.members| ==> p.members[k] in p.members;
    assert forall n :: n in p.top ==> n in a.top && a.names[n] == p.names[n];
    assert forall n :: n in a.top && n !in p.top ==> n == newMdNames;
  }

  lemma NamesStart(p: Plan, a: Layout, newMdNames: KjNode?)
    requires PlanOk(p) && (newMdNames != null ==> newMdNames !in p.names && !NamedBy(p.top, p.names, "mdNames"))
    requires a.mdNode == null ==> !NamedBy(p.top, p.names, "md")
    requires a.top == p.top + (if newMdNames == null then [] else [newMdNames])
    requires a.names == if newMdNames == null then p.names else p.names[newMdNames := "mdNames"]
    ensures NamesKnown(p, a)
  {
    assert forall n :: n in p.top ==> n in a.top && a.names[n] == p.names[n];
    assert forall n :: n in a.top && n !in p.top ==> n == newMdNames;
    if DistinctNames(p.top, p.names) {
      DistinctNamesSame(p.top, p.names, a.names);
      if newMdNames != null {
        assert !NamedBy(p.top, a.names, "mdNames");
        NewNameDistinct(p.top, newMdNames, a.names);
      }
    }
    hide DistinctNames, Distinct, Fixed;
  }

  // ---- the outcome in plain terms ----

  /** Among the first members of ToMd there is every member before i that does not stand on top. */
  lemma {:induction false} ToMdHas(p: Plan, i: nat, k: nat) returns (x: nat)
    requires PlanOk(p) && k < i <= |p.members| && !OnTop(p, k)
    ensures x < |ToMd(p, i)| && ToMd(p, i)[x] == k
  {
    hide OnTop, PlanOk;
    if k == i - 1 {
      x := |ToMd(p, i - 1)|;
    } else {
      x := ToMdHas(p, i - 1, k);
    }
  }

  /** A name "object" stands for "value". */
  lemma NewNameIs(p: Plan, k: nat)
    requires PlanOk(p) && k < |p.members|
    ensures p.members[k] in p.names
    ensures NewName(p, k) == if p.names[p.members[k]] == "object" then "value" else p.names[p.members[k]]
  {
    assert p.members[k] in p.members;
  }

  /** Member k of the update, called `name` with "value" for "object": when it is a type, a value, a date, or like a
      member of the attribute, it stands right under the attribute, unless a later member has the same name; any other
      one is in md, with its dots as equal signs, and its name in mdNames. */
  lemma MemberPlaced(p: Plan, a: Layout, k: nat, name: string)
    requires Outcome(p, a, |p.members|) && k < |p.members| && p.members[k] in p.names
    requires name == if p.names[p.members[k]] == "object" then "value" else p.names[p.members[k]]
    ensures name in ["type", "value", "creDate", "modDate"] || (exists t :: t in p.top && t in p.names && p.names[t] == name) ==>
      (forall l :: k < l < |p.members| && p.members[l] in p.names ==>
         p.names[p.members[l]] != name && !(name == "value" && p.names[p.members[l]] == "object")) ==>
      p.members[k] in a.top && p.members[k] in a.names && a.names[p.members[k]] == name
    ensures name !in ["type", "value", "creDate", "modDate"] && (forall t :: t in p.top && t in p.names ==> p.names[t] != name) ==>
      (forall l :: 0 <= l < |p.members| && p.members[l] in p.names ==> p.names[p.members[l]] !in ["md", "mdNames"]) ==>
      && p.members[k] in a.md && p.members[k] in a.names && a.names[p.members[k]] == DotForEq(name)
      && ListsThere(a) && exists n :: n in a.mdNames && n.text == name
  {
    forall l | 0 <= l < |p.members|
      ensures p.members[l] in p.names
      ensures NewName(p, l) == if p.names[p.members[l]] == "object" then "value" else p.names[p.members[l]]
    {
      NewNameIs(p, l);
    }
    FixedIs(name);
    hide NewName, Fixed, Waiting, NamesKnown, Kept, DotForEq, ToMd, ListsThere, Distinct;
    if OnTop(p, k) {
      hide InMd;
    } else if NoListNames(p) {
      var x := ToMdHas(p, |p.members|, k);
      assert EntryOk(p, a, k, x);
      hide Overwritten, InMd;
    }
  }

  lemma FixedIs(name: string)
    ensures Fixed(name) <==> name in ["type", "value", "creDate", "modDate"]
  {
  }

  /** A member of the attribute stays where it is when no member of the update has its name. */
  lemma MemberKept(p: Plan, a: Layout, t: KjNode)
    requires Outcome(p, a, |p.members|) && t in p.top && t in p.names
    requires forall l :: 0 <= l < |p.members| && p.members[l] in p.names ==>
      p.names[p.members[l]] != p.names[t] && !(p.names[t] == "value" && p.names[p.members[l]] == "object")
    ensures t in a.top && t in a.names && a.names[t] == p.names[t]
  {
    forall l | 0 <= l < |p.members|
      ensures p.members[l] in p.names
      ensures NewName(p, l) == if p.names[p.members[l]] == "object" then "value" else p.names[p.members[l]]
    {
      NewNameIs(p, l);
    }
    hide NewName, Waiting, NamesKnown, Overwritten, InMd, NoListNames, Distinct;
  }
}
