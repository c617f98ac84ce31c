/** csub_dups_checker.py: groups subscriptions by signature and chooses the documents to delete. */
module CsubDups {
  import opened Text
  import opened SortedLists
  import opened CsubSignature

  /** MongoDB's order of expirations, in which a missing one comes first. */
  predicate ExpiresNoLater(a: Option<int>, b: Option<int>) {
    a.None? || (b.Some? && a.value <= b.value)
  }

  /** find().sort('expiration', DESCENDING) */
  ghost predicate Descending<E, R>(docs: seq<Csub<E, R>>) {
    forall i, j :: 0 <= i < j < |docs| ==> ExpiresNoLater(docs[j].expiration, docs[i].expiration)
  }

  ghost predicate DistinctIds<E, R>(docs: seq<Csub<E, R>>) {
    forall i, j :: 0 <= i < j < |docs| ==> docs[i].id != docs[j].id
  }

  /** The ids of the documents with hash g, in the order in which they were found. */
  function Group<E, R>(docs: seq<Csub<E, R>>, h: Hashes<E, R>, g: string): seq<string> {
    if docs == [] then []
    else Group(docs[..|docs| - 1], h, g)
         + if Signature(docs[|docs| - 1], h) == g then [docs[|docs| - 1].id] else []
  }

  ghost predicate Grouped<E, R>(docs: seq<Csub<E, R>>, h: Hashes<E, R>, duplicates: map<string, seq<string>>) {
    && (forall g :: g in duplicates <==> Group(docs, h, g) != [])
    && (forall g :: g in duplicates ==> duplicates[g] == Group(docs, h, g))
  }

  lemma GroupSnoc<E, R>(docs: seq<Csub<E, R>>, d: Csub<E, R>, h: Hashes<E, R>, g: string)
    ensures Group(docs + [d], h, g) == Group(docs, h, g) + if Signature(d, h) == g then [d.id] else []
  {
    assert (docs + [d])[..|docs|] == docs;
  }

  lemma GroupedNext<E, R>(docs: seq<Csub<E, R>>, d: Csub<E, R>, h: Hashes<E, R>, was: map<string, seq<string>>, g: string)
    requires Grouped(docs, h, was) && g == Signature(d, h)
    ensures Grouped(docs + [d], h, was[g := (if g in was then was[g] else []) + [d.id]])
  {
    hide Signature, Group;
    forall k ensures Group(docs + [d], h, k) == Group(docs, h, k) + if g == k then [d.id] else [] {
      GroupSnoc(docs, d, h, k);
    }
  }

  /** The first stage. */
  method FindDuplicates<E, R>(docs: seq<Csub<E, R>>, h: Hashes<E, R>) returns (duplicates: map<string, seq<string>>)
    ensures Grouped(docs, h, duplicates)
  {
    duplicates := map[];
    assert docs[..0] == [];
    assert Grouped([], h, duplicates);
    hide Grouped;
    for i := 0 to |docs|
      invariant Grouped(docs[..i], h, duplicates)
    {
      var doc := docs[i];
      assert docs[..i + 1] == docs[..i] + [doc];
      var hash := ComputeSignature(doc, h);
      GroupedNext(docs[..i], doc, h, duplicates, hash);
      if hash in duplicates {
        duplicates := duplicates[hash := duplicates[hash] + [doc.id]];
      } else {
        duplicates := duplicates[hash := [doc.id]];
      }
    }
    assert docs[..|docs|] == docs;
  }

  // ---- what is in a group ----

  /** Document i has the hash, and an earlier document has it too. */
  ghost predicate Later<E, R>(docs: seq<Csub<E, R>>, h: Hashes<E, R>, i: int) {
    0 <= i < |docs| && exists j :: 0 <= j < i && Signature(docs[j], h) == Signature(docs[i], h)
  }

  ghost predicate SomeWith<E, R>(docs: seq<Csub<E, R>>, h: Hashes<E, R>, g: string) {
    exists j :: 0 <= j < |docs| && Signature(docs[j], h) == g
  }

  lemma SomeWithSnoc<E, R>(docs: seq<Csub<E, R>>, d: Csub<E, R>, h: Hashes<E, R>, g: string)
    ensures SomeWith(docs + [d], h, g) <==> SomeWith(docs, h, g) || Signature(d, h) == g
  {
    hide Signature;
    var all := docs + [d];
    assert all[|docs|] == d && forall j :: 0 <= j < |docs| ==> all[j] == docs[j];
    if SomeWith(docs, h, g) {
      var j :| 0 <= j < |docs| && Signature(docs[j], h) == g;
      assert Signature(all[j], h) == g;
    }
    if SomeWith(all, h, g) {
      var j :| 0 <= j < |all| && Signature(all[j], h) == g;
      assert j < |docs| ==> Signature(docs[j], h) == g;
    }
  }

  lemma {:induction false} GroupEmpty<E, R>(docs: seq<Csub<E, R>>, h: Hashes<E, R>, g: string)
    ensures Group(docs, h, g) != [] <==> SomeWith(docs, h, g)
    decreases |docs|
  {
    if docs != [] {
      hide *;
      var front, d := docs[..|docs| - 1], docs[|docs| - 1];
      assert docs == front + [d];
      GroupEmpty(front, h, g);
      GroupSnoc(front, d, h, g);
      SomeWithSnoc(front, d, h, g);
    }
  }

  /** All but the first of a group are documents with an earlier duplicate, in their order. */
  ghost function Rest<E, R>(docs: seq<Csub<E, R>>, h: Hashes<E, R>, g: string): seq<string> {
    if Group(docs, h, g) == [] then [] else Group(docs, h, g)[1..]
  }

  lemma RestSnoc<E, R>(docs: seq<Csub<E, R>>, d: Csub<E, R>, h: Hashes<E, R>, g: string, x: string)
    ensures x in Rest(docs + [d], h, g) <==> x in Rest(docs, h, g) || (SomeWith(docs, h, g) && Signature(d, h) == g && d.id == x)
  {
    GroupSnoc(docs, d, h, g);
    GroupEmpty(docs, h, g);
    hide Group, Signature, SomeWith;
    var front, all := Group(docs, h, g), Group(docs + [d], h, g);
    if Signature(d, h) != g {
      assert all == front;
    } else if front != [] {
      assert all[1..] == front[1..] + [d.id];
    } else {
      assert all[1..] == [];
    }
  }

  ghost predicate LaterWith<E, R>(docs: seq<Csub<E, R>>, h: Hashes<E, R>, g: string, x: string, i: int) {
    Later(docs, h, i) && docs[i].id == x && Signature(docs[i], h) == g
  }

  lemma LaterWithSnoc<E, R>(docs: seq<Csub<E, R>>, h: Hashes<E, R>, g: string, x: string)
    requires docs != []
    ensures var n := |docs| - 1;
      (exists i :: LaterWith(docs, h, g, x, i)) <==>
      (exists i :: LaterWith(docs[..n], h, g, x, i)) || (SomeWith(docs[..n], h, g) && Signature(docs[n], h) == g && docs[n].id == x)
  {
    var n := |docs| - 1;
    var front := docs[..n];
    LaterFront(docs, h);
    hide Signature, Later, SomeWith;
    if i :| LaterWith(docs, h, g, x, i) {
      assert i < n ==> LaterWith(front, h, g, x, i);
    }
    if i :| LaterWith(front, h, g, x, i) {
      assert LaterWith(docs, h, g, x, i);
    }
    if SomeWith(front, h, g) && Signature(docs[n], h) == g && docs[n].id == x {
      assert LaterWith(docs, h, g, x, n);
    }
  }

  lemma {:induction false} RestMeaning<E, R>(docs: seq<Csub<E, R>>, h: Hashes<E, R>, g: string, x: string)
    ensures x in Rest(docs, h, g) <==> exists i :: LaterWith(docs, h, g, x, i)
    decreases |docs|
  {
    if docs != [] {
      hide *;
      var front, d := docs[..|docs| - 1], docs[|docs| - 1];
      assert docs == front + [d];
      RestMeaning(front, h, g, x);
      LaterWithSnoc(docs, h, g, x);
      RestSnoc(front, d, h, g, x);
    }
  }

  lemma LaterFront<E, R>(docs: seq<Csub<E, R>>, h: Hashes<E, R>)
    requires docs != []
    ensures var n := |docs| - 1;
      && (forall i :: i < n ==> (Later(docs, h, i) <==> Later(docs[..n], h, i)))
      && (Later(docs, h, n) <==> SomeWith(docs[..n], h, Signature(docs[n], h)))
      && (forall i :: Later(docs, h, i) ==> 0 <= i < |docs|)
      && (forall i :: Later(docs[..n], h, i) ==> 0 <= i < n)
  {
    hide Signature;
    var n := |docs| - 1;
    var front := docs[..n];
    forall i | i < n ensures Later(docs, h, i) <==> Later(front, h, i) {
      if Later(docs, h, i) {
        var j :| 0 <= j < i && Signature(docs[j], h) == Signature(docs[i], h);
        assert Signature(front[j], h) == Signature(front[i], h);
      }
      if Later(front, h, i) {
        var j :| 0 <= j < i && Signature(front[j], h) == Signature(front[i], h);
        assert Signature(docs[j], h) == Signature(docs[i], h);
      }
    }
    if SomeWith(front, h, Signature(docs[n], h)) {
      var j :| 0 <= j < |front| && Signature(front[j], h) == Signature(docs[n], h);
      assert Signature(docs[j], h) == Signature(docs[n], h);
    }
    if Later(docs, h, n) {
      var j :| 0 <= j < n && Signature(docs[j], h) == Signature(docs[n], h);
      assert Signature(front[j], h) == Signature(docs[n], h);
    }
  }

  lemma {:induction false} GroupDistinct<E, R>(docs: seq<Csub<E, R>>, h: Hashes<E, R>, g: string)
    requires DistinctIds(docs)
    ensures forall x :: x in Group(docs, h, g) ==> exists i :: 0 <= i < |docs| && docs[i].id == x && Signature(docs[i], h) == g
    ensures NoRepeat(Group(docs, h, g))
    decreases |docs|
  {
    if docs != [] {
      var n := |docs| - 1;
      var front, d := docs[..n], docs[n];
      assert docs == front + [d];
      GroupDistinct(front, h, g);
      GroupSnoc(front, d, h, g);
      hide Group, Signature;
      forall x | x in Group(docs, h, g) ensures exists i :: 0 <= i < |docs| && docs[i].id == x && Signature(docs[i], h) == g {
        if x in Group(front, h, g) {
          var i :| 0 <= i < |front| && front[i].id == x && Signature(front[i], h) == g;
          assert docs[i] == front[i];
        } else {
          assert docs[n].id == x;
        }
      }
      forall x | x in Group(front, h, g) ensures x != d.id {
        var i :| 0 <= i < |front| && front[i].id == x && Signature(front[i], h) == g;
        assert docs[i] == front[i];
      }
      NoRepeatJoin(Group(front, h, g), if Signature(d, h) == g then [d.id] else []);
    }
  }

  ghost predicate NoRepeat(s: seq<string>) {
    forall i, j :: 0 <= i < j < |s| ==> s[i] != s[j]
  }

  lemma NoRepeatJoin(a: seq<string>, b: seq<string>)
    requires NoRepeat(a) && NoRepeat(b) && forall x :: x in a ==> x !in b
    ensures NoRepeat(a + b)
  {
    forall i, j | 0 <= i < j < |a + b| ensures (a + b)[i] != (a + b)[j] {
      if i < |a| <= j {
        assert a[i] in a && b[j - |a|] in b;
      }
    }
  }

  /** Groups of different hashes share nothing. */
  lemma GroupsApart<E, R>(docs: seq<Csub<E, R>>, h: Hashes<E, R>, g: string, g': string, x: string)
    requires DistinctIds(docs) && x in Group(docs, h, g) && x in Group(docs, h, g')
    ensures g == g'
  {
    GroupDistinct(docs, h, g);
    GroupDistinct(docs, h, g');
    hide Group, Signature;
    var i :| 0 <= i < |docs| && docs[i].id == x && Signature(docs[i], h) == g;
    var j :| 0 <= j < |docs| && docs[j].id == x && Signature(docs[j], h) == g';
    assert i == j;
  }

  // ---- the second stage ----

  ghost predicate Chosen<E, R>(docs: seq<Csub<E, R>>, h: Hashes<E, R>, done: seq<string>, toDelete: seq<string>) {
    && NoRepeat(toDelete)
    && forall x :: x in toDelete <==> exists g :: g in done && x in Rest(docs, h, g)
  }

  lemma RestIn<E, R>(docs: seq<Csub<E, R>>, h: Hashes<E, R>, g: string)
    requires DistinctIds(docs)
    ensures NoRepeat(Rest(docs, h, g)) && forall x :: x in Rest(docs, h, g) ==> x in Group(docs, h, g)
  {
    GroupDistinct(docs, h, g);
    hide Group;
  }

  lemma ChosenNext<E, R>(docs: seq<Csub<E, R>>, h: Hashes<E, R>, done: seq<string>, g: string, toDelete: seq<string>)
    requires DistinctIds(docs) && Chosen(docs, h, done, toDelete) && g !in done
    ensures Chosen(docs, h, done + [g], toDelete + Rest(docs, h, g))
  {
    hide Rest, Group;
    RestIn(docs, h, g);
    forall x | x in toDelete ensures x !in Rest(docs, h, g) {
      if x in Rest(docs, h, g) {
        var g' :| g' in done && x in Rest(docs, h, g');
        RestIn(docs, h, g');
        GroupsApart(docs, h, g, g', x);
      }
    }
    NoRepeatJoin(toDelete, Rest(docs, h, g));
    hide NoRepeat;
    var all := toDelete + Rest(docs, h, g);
    forall x ensures x in all <==> exists k :: k in done + [g] && x in Rest(docs, h, k) {
      if x in toDelete {
        var k :| k in done && x in Rest(docs, h, k);
        assert k in done + [g];
      } else if x in Rest(docs, h, g) {
        assert g in done + [g];
      }
    }
  }

  /** The hashes may come in any order. */
  method ChooseDeletions<E, R>(ghost docs: seq<Csub<E, R>>, ghost h: Hashes<E, R>, duplicates: map<string, seq<string>>, hashes: seq<string>)
      returns (toDelete: seq<string>)
    requires DistinctIds(docs) && Grouped(docs, h, duplicates)
    requires NoRepeat(hashes) && forall g :: g in hashes <==> g in duplicates
    ensures Chosen(docs, h, hashes, toDelete)
  {
    toDelete := [];
    assert hashes[..0] == [] && Chosen(docs, h, [], []);
    for i := 0 to |hashes|
      invariant Chosen(docs, h, hashes[..i], toDelete)
    {
      var hash := hashes[i];
      assert hash in hashes && hash !in hashes[..i];
      assert hashes[..i + 1] == hashes[..i] + [hash];
      assert duplicates[hash] == Group(docs, h, hash) && Group(docs, h, hash) != [];
      hide Chosen, Grouped, Group;
      ChosenNext(docs, h, hashes[..i], hash, toDelete);
      if |duplicates[hash]| > 1 {
        toDelete := toDelete + duplicates[hash][1..];
      } else {
        assert toDelete + duplicates[hash][1..] == toDelete;
      }
    }
    assert hashes[..|hashes|] == hashes;
  }

  /** The documents to delete are exactly those with an earlier document of the same signature. */
  lemma ChosenMeaning<E, R>(docs: seq<Csub<E, R>>, h: Hashes<E, R>, hashes: seq<string>, toDelete: seq<string>, i: nat)
    requires DistinctIds(docs) && i < |docs| && Chosen(docs, h, hashes, toDelete)
    requires forall g :: g in hashes <==> Group(docs, h, g) != []
    ensures docs[i].id in toDelete <==> Later(docs, h, i)
  {
    var x, g := docs[i].id, Signature(docs[i], h);
    RestMeaning(docs, h, g, x);
    hide Group, Signature, Later;
    if x in toDelete {
      var g' :| g' in hashes && x in Rest(docs, h, g');
      RestMeaning(docs, h, g', x);
      var k :| LaterWith(docs, h, g', x, k);
      SameId(docs, h, g', x, k, i);
    }
    if Later(docs, h, i) {
      assert LaterWith(docs, h, g, x, i);
    }
  }

  lemma SameId<E, R>(docs: seq<Csub<E, R>>, h: Hashes<E, R>, g: string, x: string, k: int, i: nat)
    requires DistinctIds(docs) && i < |docs| && docs[i].id == x && LaterWith(docs, h, g, x, k)
    ensures k == i
  {
  }

  // ---- the whole script ----

  /** Document j is the one that is kept for document i: the same subscription, and none expires later. */
  ghost predicate KeptFor<E, R>(docs: seq<Csub<E, R>>, toDelete: seq<string>, i: int, j: int) {
    && 0 <= i < |docs| && 0 <= j < |docs|
    && docs[j].id !in toDelete && SameUpToOrder(docs[i], docs[j])
    && ExpiresNoLater(docs[i].expiration, docs[j].expiration)
  }

  ghost predicate HasKept<E, R>(docs: seq<Csub<E, R>>, toDelete: seq<string>, i: int) {
    exists j :: KeptFor(docs, toDelete, i, j)
  }

  lemma KeptIs<E, R>(docs: seq<Csub<E, R>>, toDelete: seq<string>, i: int, j: int)
    requires KeptFor(docs, toDelete, i, j)
    ensures HasKept(docs, toDelete, i)
  {
  }

  /** The first document of a signature. */
  lemma {:induction false} FirstOf<E, R>(docs: seq<Csub<E, R>>, h: Hashes<E, R>, i: nat) returns (j: nat)
    requires i < |docs|
    ensures j <= i && Signature(docs[j], h) == Signature(docs[i], h) && !Later(docs, h, j)
    decreases i
  {
    hide Signature;
    if Later(docs, h, i) {
      var k :| 0 <= k < i && Signature(docs[k], h) == Signature(docs[i], h);
      j := FirstOf(docs, h, k);
    } else {
      j := i;
    }
  }

  lemma TwoWithOneSignature<E, R>(docs: seq<Csub<E, R>>, h: Hashes<E, R>, i: nat, j: nat)
    requires i < j < |docs| && Signature(docs[i], h) == Signature(docs[j], h)
    ensures Later(docs, h, j)
  {
    hide Signature;
  }

  /** For every document exactly one is kept among those that are the same up to order, and it is one with the
      greatest expiration. */
  lemma OneIsKept<E(!new), R(!new)>(docs: seq<Csub<E, R>>, h: Hashes<E, R>, toDelete: seq<string>, i: nat) returns (j: nat)
    requires i < |docs| && Descending(docs) && NoCollisions(h)
    requires forall k :: 0 <= k < |docs| ==> (docs[k].id in toDelete <==> Later(docs, h, k))
    ensures KeptFor(docs, toDelete, i, j)
    ensures forall k :: 0 <= k < |docs| && docs[k].id !in toDelete && SameUpToOrder(docs[i], docs[k]) ==> k == j
    ensures forall k :: 0 <= k < |docs| && SameUpToOrder(docs[i], docs[k]) ==> ExpiresNoLater(docs[k].expiration, docs[j].expiration)
  {
    j := FirstOf(docs, h, i);
    SignatureMeaning(docs[i], docs[j], h);
    forall k | 0 <= k < |docs| && SameUpToOrder(docs[i], docs[k])
      ensures (docs[k].id !in toDelete ==> k == j) && ExpiresNoLater(docs[k].expiration, docs[j].expiration)
    {
      SignatureMeaning(docs[i], docs[k], h);
      NoneBefore(docs, h, j, k);
      if j < k {
        TwoWithOneSignature(docs, h, j, k);
      }
    }
    assert SameUpToOrder(docs[i], docs[i]);
  }

  lemma NoneBefore<E, R>(docs: seq<Csub<E, R>>, h: Hashes<E, R>, j: nat, k: nat)
    requires j < |docs| && k < |docs| && !Later(docs, h, j) && Signature(docs[j], h) == Signature(docs[k], h)
    ensures j <= k
  {
    hide Signature;
    if k < j {
      TwoWithOneSignature(docs, h, k, j);
    }
  }

  /** The collection without the deleted documents. */
  function Without<E, R>(docs: seq<Csub<E, R>>, toDelete: seq<string>): seq<Csub<E, R>> {
    if docs == [] then []
    else Without(docs[..|docs| - 1], toDelete) + if docs[|docs| - 1].id in toDelete then [] else [docs[|docs| - 1]]
  }

  function Only<E, R>(docs: seq<Csub<E, R>>, toDelete: seq<string>): seq<Csub<E, R>> {
    if docs == [] then []
    else Only(docs[..|docs| - 1], toDelete) + if docs[|docs| - 1].id in toDelete then [docs[|docs| - 1]] else []
  }

  lemma WithoutSnoc<E, R>(docs: seq<Csub<E, R>>, d: Csub<E, R>, toDelete: seq<string>)
    ensures Without(docs + [d], toDelete) == Without(docs, toDelete) + if d.id in toDelete then [] else [d]
  {
    assert (docs + [d])[..|docs|] == docs;
  }

  lemma OnlySnoc<E, R>(docs: seq<Csub<E, R>>, d: Csub<E, R>, toDelete: seq<string>)
    ensures Only(docs + [d], toDelete) == Only(docs, toDelete) + if d.id in toDelete then [d] else []
  {
    assert (docs + [d])[..|docs|] == docs;
  }

  lemma SplitOff<T>(a: seq<T>, b: seq<T>, all: seq<T>, x: T, left: bool)
    requires multiset(a) + multiset(b) == multiset(all)
    ensures multiset(a + if left then [x] else []) + multiset(b + if left then [] else [x]) == multiset(all + [x])
  {
  }

  /** Kept and deleted documents make up the whole collection. */
  lemma {:induction false} KeptAndDeleted<E, R>(docs: seq<Csub<E, R>>, toDelete: seq<string>)
    ensures multiset(Without(docs, toDelete)) + multiset(Only(docs, toDelete)) == multiset(docs)
    decreases |docs|
  {
    if docs == [] {
      assert Without(docs, toDelete) == [] && Only(docs, toDelete) == [];
    } else {
      hide *;
      var front, d := docs[..|docs| - 1], docs[|docs| - 1];
      KeptAndDeleted(front, toDelete);
      WithoutSnoc(front, d, toDelete);
      OnlySnoc(front, d, toDelete);
      SplitOff(Without(front, toDelete), Only(front, toDelete), front, d, d.id !in toDelete);
      assert docs == front + [d];
    }
  }

  /** The whole script: each document to delete is named once, it is one with an earlier duplicate, a duplicate that
      expires no earlier is kept for it, and no two kept documents are the same. */
  method RemoveDuplicates<E(!new), R(!new)>(docs: seq<Csub<E, R>>, h: Hashes<E, R>) returns (toDelete: seq<string>)
    requires DistinctIds(docs)
    ensures NoRepeat(toDelete)
    ensures forall x :: x in toDelete ==> exists i :: 0 <= i < |docs| && docs[i].id == x
    ensures forall i :: 0 <= i < |docs| ==> (docs[i].id in toDelete <==> Later(docs, h, i))
    ensures Descending(docs) && NoCollisions(h) ==> forall i :: 0 <= i < |docs| ==> HasKept(docs, toDelete, i)
    ensures Descending(docs) && NoCollisions(h) ==>
      forall i, j :: 0 <= i < j < |docs| && docs[i].id !in toDelete && docs[j].id !in toDelete ==> !SameUpToOrder(docs[i], docs[j])
  {
    var duplicates := FindDuplicates(docs, h);
    var hashes := HashesOf(duplicates);
    toDelete := ChooseDeletions(docs, h, duplicates, hashes);
    assert forall g :: g in hashes <==> Group(docs, h, g) != [];
    assert NoRepeat(toDelete);
    OnlyKnown(docs, h, hashes, toDelete);
    forall i | 0 <= i < |docs| ensures docs[i].id in toDelete <==> Later(docs, h, i) {
      ChosenMeaning(docs, h, hashes, toDelete, i);
    }
    hide *;
    if Descending(docs) && NoCollisions(h) {
      forall i | 0 <= i < |docs|
        ensures HasKept(docs, toDelete, i)
        ensures forall k :: 0 <= k < |docs| && k != i && docs[i].id !in toDelete && docs[k].id !in toDelete ==> !SameUpToOrder(docs[i], docs[k])
      {
        var j := OneIsKept(docs, h, toDelete, i);
        KeptIs(docs, toDelete, i, j);
        SameAsItself(docs[i]);
      }
    }
  }

  lemma SameAsItself<E, R>(d: Csub<E, R>)
    ensures SameUpToOrder(d, d)
  {
  }

  lemma OnlyKnown<E, R>(docs: seq<Csub<E, R>>, h: Hashes<E, R>, hashes: seq<string>, toDelete: seq<string>)
    requires DistinctIds(docs) && Chosen(docs, h, hashes, toDelete)
    ensures forall x :: x in toDelete ==> exists i :: 0 <= i < |docs| && docs[i].id == x
  {
    hide Group, Rest;
    forall x | x in toDelete ensures exists i :: 0 <= i < |docs| && docs[i].id == x {
      var g :| g in hashes && x in Rest(docs, h, g);
      RestIn(docs, h, g);
      GroupDistinct(docs, h, g);
    }
  }

  method HashesOf(m: map<string, seq<string>>) returns (keys: seq<string>)
    ensures NoRepeat(keys) && forall g :: g in keys <==> g in m
  {
    keys := [];
    var left := m.Keys;
    while left != {}
      invariant left <= m.Keys && (forall k :: k in keys <==> k in m && k !in left) && NoRepeat(keys)
      decreases |left|
    {
      var k :| k in left;
      keys := keys + [k];
      left := left - {k};
    }
  }
}
