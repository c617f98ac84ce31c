/** The signature of a subscription document: what is left when fields that do not matter are removed and lists whose
    order does not matter are sorted. */
module CsubSignature {
  import opened Text
  import opened SortedLists

  datatype Condition = OnChange(values: seq<string>) | OtherCondition(kind: string, value: string)

  /** A document of the csubs collection. `rest` is every other field that counts; what does not count
      (lastNotification, count, status, description) is left out. */
  datatype Csub<E, R> = Csub(id: string, expiration: Option<int>, entities: seq<E>, conditions: seq<Condition>, attrs: seq<string>, rest: R)

  datatype Canonical<E, R> = Canonical(entities: seq<E>, conditions: seq<Condition>, attrs: seq<string>, rest: R)

  /** The hashes: of an entity, of a condition, and of a whole document. */
  datatype Hashes<!E, !R> = Hashes(entity: E -> string, condition: Condition -> string, document: Canonical<E, R> -> string)

  ghost predicate NoCollisions<E(!new), R(!new)>(h: Hashes<E, R>) {
    Injective(h.entity) && Injective(h.condition) && Injective(h.document)
  }

  function Itself(s: string): string { s }

  function SortValue(c: Condition): Condition {
    match c case OnChange(v) => OnChange(Sorted(v, Itself)) case OtherCondition(_, _) => c
  }

  function Map<A, B>(s: seq<A>, f: A -> B): (r: seq<B>)
    ensures |r| == |s| && forall i :: 0 <= i < |s| ==> r[i] == f(s[i])
  {
    if s == [] then [] else Map(s[..|s| - 1], f) + [f(s[|s| - 1])]
  }

  function Canon<E, R>(d: Csub<E, R>, h: Hashes<E, R>): Canonical<E, R> {
    Canonical(Sorted(d.entities, h.entity), Sorted(Map(d.conditions, SortValue), h.condition), Sorted(d.attrs, Itself), d.rest)
  }

  function Signature<E, R>(d: Csub<E, R>, h: Hashes<E, R>): string {
    h.document(Canon(d, h))
  }

  /** The script's way to the signature: values of ONCHANGE conditions first, then the lists. */
  method ComputeSignature<E, R>(doc: Csub<E, R>, h: Hashes<E, R>) returns (hash: string)
    ensures hash == Signature(doc, h)
  {
    var conditions := doc.conditions;
    assert conditions[..0] == [];
    for i := 0 to |conditions|
      invariant |conditions| == |doc.conditions| && conditions[i..] == doc.conditions[i..]
      invariant conditions[..i] == Map(doc.conditions[..i], SortValue)
    {
      assert conditions[i] == doc.conditions[i] by {
        assert conditions[i..][0] == doc.conditions[i..][0];
      }
      assert doc.conditions[..i + 1] == doc.conditions[..i] + [doc.conditions[i]];
      ghost var was := conditions;
      if conditions[i].OnChange? {
        conditions := conditions[i := OnChange(Sorted(conditions[i].values, Itself))];
      }
      assert conditions[..i + 1] == was[..i] + [SortValue(was[i])];
      assert conditions[i + 1..] == was[i..][1..];
    }
    assert conditions[..|conditions|] == conditions && doc.conditions[..|conditions|] == doc.conditions;
    var canonical := Canonical(Sorted(doc.entities, h.entity), Sorted(conditions, h.condition), Sorted(doc.attrs, Itself), doc.rest);
    hash := h.document(canonical);
  }

  // ---- what the signature means ----

  /** A condition with the order of its values forgotten. */
  datatype Unordered = AnyOrder(bag: multiset<string>) | Exactly(kind: string, value: string)

  ghost function Forget(c: Condition): Unordered {
    match c case OnChange(v) => AnyOrder(multiset(v)) case OtherCondition(k, v) => Exactly(k, v)
  }

  ghost function ForgetAll(cs: seq<Condition>): multiset<Unordered> {
    if cs == [] then multiset{} else ForgetAll(cs[..|cs| - 1]) + multiset{Forget(cs[|cs| - 1])}
  }

  /** The same subscription, up to the order of entities, conditions, attributes and values of ONCHANGE conditions. */
  ghost predicate SameUpToOrder<E, R>(a: Csub<E, R>, b: Csub<E, R>) {
    && multiset(a.entities) == multiset(b.entities)
    && ForgetAll(a.conditions) == ForgetAll(b.conditions)
    && multiset(a.attrs) == multiset(b.attrs)
    && a.rest == b.rest
  }

  lemma ItselfInjective()
    ensures Injective(Itself)
  {
  }

  lemma SameSortValue(a: Condition, b: Condition)
    ensures SortValue(a) == SortValue(b) <==> Forget(a) == Forget(b)
  {
    ItselfInjective();
    if a.OnChange? && b.OnChange? {
      SameSorted(a.values, b.values, Itself);
    }
  }

  ghost function ToSeq(m: multiset<string>): (s: seq<string>)
    ensures multiset(s) == m
    decreases |m|
  {
    if m == multiset{} then [] else
      var x :| x in m;
      [x] + ToSeq(m - multiset{x})
  }

  /** A condition with the given unordered form. */
  ghost function AnyWith(u: Unordered): (c: Condition)
    ensures Forget(c) == u
  {
    match u case Exactly(k, v) => OtherCondition(k, v) case AnyOrder(m) => OnChange(ToSeq(m))
  }

  ghost predicate SameCounts(cs: seq<Condition>) {
    forall c :: multiset(Map(cs, SortValue))[SortValue(c)] == ForgetAll(cs)[Forget(c)]
  }

  /** A condition occurs as often sorted as with its order forgotten. */
  lemma {:induction false} CountsAgree(cs: seq<Condition>)
    ensures SameCounts(cs)
    decreases |cs|
  {
    if cs != [] {
      var front, d := cs[..|cs| - 1], cs[|cs| - 1];
      CountsAgree(front);
      hide SortValue, Forget;
      forall c ensures multiset(Map(cs, SortValue))[SortValue(c)] == ForgetAll(cs)[Forget(c)] {
        SameSortValue(c, d);
        assert multiset(Map(front, SortValue))[SortValue(c)] == ForgetAll(front)[Forget(c)];
      }
    }
  }

  lemma SortedOnly(cs: seq<Condition>, k: Condition)
    requires k in multiset(Map(cs, SortValue))
    ensures exists c :: SortValue(c) == k
  {
    var r := Map(cs, SortValue);
    assert k in r;
    var i :| 0 <= i < |r| && r[i] == k;
    assert SortValue(cs[i]) == k;
  }

  /** Sorted conditions are the same collection exactly when the unordered ones are. */
  lemma SameConditions(a: seq<Condition>, b: seq<Condition>)
    ensures multiset(Map(a, SortValue)) == multiset(Map(b, SortValue)) <==> ForgetAll(a) == ForgetAll(b)
  {
    CountsAgree(a);
    CountsAgree(b);
    var x, y := multiset(Map(a, SortValue)), multiset(Map(b, SortValue));
    hide SortValue, Forget, Map, ForgetAll;
    if x == y {
      forall u ensures ForgetAll(a)[u] == ForgetAll(b)[u] {
        assert x[SortValue(AnyWith(u))] == ForgetAll(a)[Forget(AnyWith(u))];
        assert y[SortValue(AnyWith(u))] == ForgetAll(b)[Forget(AnyWith(u))];
      }
    }
    if ForgetAll(a) == ForgetAll(b) {
      forall k ensures x[k] == y[k] {
        if k in x || k in y {
          SortedOnly(if k in x then a else b, k);
          var c :| SortValue(c) == k;
          assert x[SortValue(c)] == ForgetAll(a)[Forget(c)] && y[SortValue(c)] == ForgetAll(b)[Forget(c)];
        }
      }
    }
  }

  /** Two subscriptions have the same signature exactly when they are the same up to order. */
  lemma SignatureMeaning<E(!new), R(!new)>(a: Csub<E, R>, b: Csub<E, R>, h: Hashes<E, R>)
    requires NoCollisions(h)
    ensures Signature(a, h) == Signature(b, h) <==> SameUpToOrder(a, b)
  {
    ItselfInjective();
    assert Signature(a, h) == Signature(b, h) <==> Canon(a, h) == Canon(b, h);
    SameSorted(a.entities, b.entities, h.entity);
    SameSorted(a.attrs, b.attrs, Itself);
    SameSorted(Map(a.conditions, SortValue), Map(b.conditions, SortValue), h.condition);
    SameConditions(a.conditions, b.conditions);
  }
}
