/** Three database scripts: the conversion of attribute vectors to objects, the change of the separator between
    attribute names and ids, and the consistency check. */
module Migration {
  import opened Text
  import opened Dots
  import opened Separators

  /** An entry of an old attribute vector: its name, its id if it has one, and everything else. */
  datatype OldAttr<V> = OldAttr(name: string, id: Option<string>, rest: V)

  /** What the conversion makes of a document; a document with duplicates is left as it is. */
  datatype Conversion<V> = Skipped | Converted(attrNames: seq<string>, attrs: map<string, V>)

  function RawKey<V>(a: OldAttr<V>): string {
    match a.id case None => a.name case Some(id) => a.name + "__" + id
  }

  function Key<V>(a: OldAttr<V>): string {
    DotForEq(RawKey(a))
  }

  /** The script compares a key with its dots to keys without dots. */
  ghost predicate SeenAsDuplicate<V>(old': seq<OldAttr<V>>, j: nat) {
    j < |old'| && exists i :: 0 <= i < j && Key(old'[i]) == RawKey(old'[j])
  }

  /** attrNames has every name once. */
  ghost predicate NamesFrom<V>(old': seq<OldAttr<V>>, names: seq<string>) {
    && (forall i :: 0 <= i < |old'| ==> old'[i].name in names)
    && (forall n :: n in names ==> exists i :: 0 <= i < |old'| && old'[i].name == n)
    && (forall i, j :: 0 <= i < j < |names| ==> names[i] != names[j])
  }

  /** attrs has every key, with what the last attribute of that key had. */
  ghost predicate AttrsFrom<V>(old': seq<OldAttr<V>>, attrs: map<string, V>) {
    && (forall i :: 0 <= i < |old'| ==> Key(old'[i]) in attrs)
    && (forall k :: k in attrs ==> exists i :: IsLast(old', i, k) && attrs[k] == old'[i].rest)
  }

  ghost predicate IsLast<V>(old': seq<OldAttr<V>>, i: int, k: string) {
    0 <= i < |old'| && Key(old'[i]) == k && forall j :: i < j < |old'| ==> Key(old'[j]) != k
  }

  lemma NamesNext<V>(old': seq<OldAttr<V>>, a: OldAttr<V>, names: seq<string>)
    requires NamesFrom(old', names)
    ensures NamesFrom(old' + [a], if a.name in names then names else names + [a.name])
  {
    var o, names' := old' + [a], if a.name in names then names else names + [a.name];
    forall n | n in names' ensures exists i :: 0 <= i < |o| && o[i].name == n {
      if n == a.name {
        assert o[|old'|].name == n;
      } else {
        var i :| 0 <= i < |old'| && old'[i].name == n;
        assert o[i].name == n;
      }
    }
  }

  lemma AttrsNext<V>(old': seq<OldAttr<V>>, a: OldAttr<V>, attrs: map<string, V>)
    requires AttrsFrom(old', attrs)
    ensures AttrsFrom(old' + [a], attrs[Key(a) := a.rest])
  {
    hide Key;
    var o, attrs' := old' + [a], attrs[Key(a) := a.rest];
    forall k | k in attrs' ensures exists i :: IsLast(o, i, k) && attrs'[k] == o[i].rest {
      if k == Key(a) {
        assert IsLast(o, |old'|, k);
      } else {
        var i :| IsLast(old', i, k) && attrs[k] == old'[i].rest;
        assert IsLast(o, i, k);
      }
    }
  }

  lemma KeysSoFar<V>(old': seq<OldAttr<V>>, j: nat, attrs: map<string, V>)
    requires j < |old'| && AttrsFrom(old'[..j], attrs)
    ensures RawKey(old'[j]) in attrs <==> SeenAsDuplicate(old', j)
  {
    hide Key, RawKey;
    if RawKey(old'[j]) in attrs {
      var i :| IsLast(old'[..j], i, RawKey(old'[j])) && attrs[RawKey(old'[j])] == old'[..j][i].rest;
      assert Key(old'[i]) == RawKey(old'[j]);
    }
    if SeenAsDuplicate(old', j) {
      var i :| 0 <= i < j && Key(old'[i]) == RawKey(old'[j]);
      assert Key(old'[..j][i]) in attrs;
    }
  }

  lemma NothingConverted<V>()
    ensures NamesFrom<V>([], []) && AttrsFrom<V>([], map[])
  {
  }

  lemma SeenInside<V>(old': seq<OldAttr<V>>)
    ensures forall j: nat :: SeenAsDuplicate(old', j) ==> j < |old'|
  {
  }

  /** attrsvector2attrsobject.py: it gives up exactly when it sees a duplicate key. */
  method Convert<V>(oldAttrs: seq<OldAttr<V>>) returns (r: Conversion<V>)
    ensures r.Skipped? <==> exists j: nat :: SeenAsDuplicate(oldAttrs, j)
    ensures r.Converted? ==> NamesFrom(oldAttrs, r.attrNames) && AttrsFrom(oldAttrs, r.attrs)
  {
    hide NamesFrom, AttrsFrom, SeenAsDuplicate, RawKey;
    var names: seq<string>, attrs: map<string, V> := [], map[];
    assert oldAttrs[..0] == [];
    NothingConverted<V>();
    for j := 0 to |oldAttrs|
      invariant NamesFrom(oldAttrs[..j], names) && AttrsFrom(oldAttrs[..j], attrs)
      invariant forall k :: 0 <= k < j ==> !SeenAsDuplicate(oldAttrs, k)
    {
      var attr := oldAttrs[j];
      var key := RawKey(attr);
      assert oldAttrs[..j + 1] == oldAttrs[..j] + [attr];
      NamesNext(oldAttrs[..j], attr, names);
      AttrsNext(oldAttrs[..j], attr, attrs);
      KeysSoFar(oldAttrs, j, attrs);
      if attr.name !in names {
        names := names + [attr.name];
      }
      if key in attrs {
        return Skipped;
      }
      attrs := attrs[DotForEq(key) := attr.rest];
    }
    assert oldAttrs[..|oldAttrs|] == oldAttrs;
    SeenInside(oldAttrs);
    return Converted(names, attrs);
  }

  // ---- which duplicates the conversion sees ----

  /** Two attributes get the same key; the script notices exactly when the later one has no dot in its own. */
  lemma SeenWithoutDots<V>(a: OldAttr<V>, b: OldAttr<V>)
    ensures Key(a) == RawKey(b) <==> Key(a) == Key(b) && '.' !in RawKey(b)
  {
    var k, r := Key(a), RawKey(b);
    if k == r {
      forall i | 0 <= i < |r| ensures r[i] != '.' {
        assert k[i] != '.';
      }
    }
    if '.' !in r {
      forall i | 0 <= i < |r| ensures DotForEq(r)[i] == r[i] {
        assert r[i] in r;
      }
      assert DotForEq(r) == r;
    }
  }

  ghost predicate SameKey<V>(old': seq<OldAttr<V>>, i: int, j: int) {
    0 <= i < j < |old'| && Key(old'[i]) == Key(old'[j])
  }

  /** The conversion loses an attribute and does not notice. */
  ghost predicate LosesSilently<V>(old': seq<OldAttr<V>>) {
    (forall j: nat :: !SeenAsDuplicate(old', j)) && exists i, j :: SameKey(old', i, j)
  }

  /** That happens exactly when there are attributes with the same key, and the later one of each two has a dot. */
  lemma SilentLoss<V>(old': seq<OldAttr<V>>)
    ensures LosesSilently(old') <==>
      (exists i, j :: SameKey(old', i, j)) && (forall i, j :: SameKey(old', i, j) ==> '.' in RawKey(old'[j]))
  {
    hide Key, RawKey;
    forall i, j | 0 <= i < j < |old'|
      ensures Key(old'[i]) == RawKey(old'[j]) <==> SameKey(old', i, j) && '.' !in RawKey(old'[j])
    {
      SeenWithoutDots(old'[i], old'[j]);
    }
    if LosesSilently(old') {
      forall i, j | SameKey(old', i, j) ensures '.' in RawKey(old'[j]) {
        assert !SeenAsDuplicate(old', j);
      }
    }
  }

  /** Attributes need not have the same name for that. */
  lemma EqAndDotAreLost<V>(x: V, y: V)
    ensures LosesSilently([OldAttr("a=b", None, x), OldAttr("a.b", None, y)])
  {
    var old' := [OldAttr("a=b", None, x), OldAttr("a.b", None, y)];
    assert DotForEq("a=b") == "a=b" && DotForEq("a.b") == "a=b" && "a=b"[1] != "a.b"[1];
    assert SameKey(old', 0, 1);
  }

  /** A duplicate with a dot is not seen: one of the two attributes is lost without a word. */
  lemma DottedDuplicateIsLost<V>(x: V, y: V)
    ensures var old' := [OldAttr("a.b", None, x), OldAttr("a.b", None, y)];
      && (forall j: nat :: !SeenAsDuplicate(old', j))
      && (forall names, attrs :: NamesFrom(old', names) && AttrsFrom(old', attrs) ==> attrs == map["a=b" := y])
  {
    var old' := [OldAttr("a.b", None, x), OldAttr("a.b", None, y)];
    assert DotForEq("a.b") == "a=b" && "a=b"[1] != "a.b"[1];
    forall attrs | AttrsFrom(old', attrs) ensures attrs == map["a=b" := y] {
      assert Key(old'[0]) in attrs && Key(old'[1]) == "a=b";
      forall k | k in attrs ensures k == "a=b" && attrs[k] == y {
        var i :| IsLast(old', i, k) && attrs[k] == old'[i].rest;
        assert i == 1;
      }
    }
  }

  // ---- change_attr_id_separator.py ----

  /** attr.find("__") > 0 */
  predicate Separable(k: string) {
    Has(k, '_', '_') && !(|k| >= 2 && k[0] == '_' && k[1] == '_')
  }

  function NewKey(k: string): string {
    if Separable(k) then Replaced(k) else k
  }

  lemma FoundAfterStart(k: string)
    ensures Separable(k) <==> Find(k, "__", 0).Some? && Find(k, "__", 0).value > 0
  {
    forall p: nat ensures OccursAt(k, "__", p) <==> Pair(k, p, '_', '_') {
      if Pair(k, p, '_', '_') {
        forall i | 0 <= i < 2 ensures k[p + i] == "__"[i] {}
      }
      if OccursAt(k, "__", p) {
        assert k[p + 0] == "__"[0] && k[p + 1] == "__"[1];
      }
    }
    var f := Find(k, "__", 0);
    if f.Some? {
      assert Pair(k, f.value, '_', '_');
      assert f.value > 0 ==> !Pair(k, 0, '_', '_');
    } else {
      forall i | 0 <= i < |k| - 1 ensures !Pair(k, i, '_', '_') {
        assert !OccursAt(k, "__", i);
      }
    }
  }

  /** Where the attribute of an old key is while some keys are still to be replaced. */
  function KeyNow(k: string, todo: set<string>): string {
    if k in todo then k else NewKey(k)
  }

  ghost predicate CameFrom<V>(attrs: map<string, V>, todo: set<string>, new': map<string, V>, k: string, k': string) {
    k in attrs && KeyNow(k, todo) == k' && k' in new' && new'[k'] == attrs[k]
  }

  /** Every key is replaced, and every new key has what one of its old keys had. */
  ghost predicate Rekeyed<V>(attrs: map<string, V>, todo: set<string>, new': map<string, V>) {
    && (forall k :: k in attrs ==> KeyNow(k, todo) in new')
    && (forall k' :: k' in new' ==> exists k :: CameFrom(attrs, todo, new', k, k'))
  }

  /** A key that still has its separator has only one source. */
  lemma OnlySource<V>(attrs: map<string, V>, todo: set<string>, new': map<string, V>, key: string)
    requires Rekeyed(attrs, todo, new') && key in attrs && key in todo && Separable(key)
    ensures key in new' && new'[key] == attrs[key]
    ensures forall k :: k in attrs && k != key ==> KeyNow(k, todo) != key
  {
    forall k | k in attrs && k != key ensures KeyNow(k, todo) != key {
      if Separable(k) {
        NothingLeft(k);
      }
    }
    assert KeyNow(key, todo) in new';
    var k :| CameFrom(attrs, todo, new', k, key);
  }

  lemma RekeyOne<V>(attrs: map<string, V>, todo: set<string>, new': map<string, V>, key: string)
    requires Rekeyed(attrs, todo, new') && key in attrs && key in todo && Separable(key)
    ensures key in new' && Rekeyed(attrs, todo - {key}, (new' - {key})[Replaced(key) := new'[key]])
  {
    OnlySource(attrs, todo, new', key);
    var todo', t := todo - {key}, (new' - {key})[Replaced(key) := new'[key]];
    assert KeyNow(key, todo') == Replaced(key);
    hide NewKey, Separable, Replaced, Has;
    forall k | k in attrs ensures KeyNow(k, todo') in t {
      if k != key {
        assert KeyNow(k, todo') == KeyNow(k, todo) && KeyNow(k, todo) in new';
      }
    }
    forall k' | k' in t ensures exists k :: CameFrom(attrs, todo', t, k, k') {
      if k' == Replaced(key) {
        assert CameFrom(attrs, todo', t, key, k');
      } else {
        var k :| CameFrom(attrs, todo, new', k, k');
        assert CameFrom(attrs, todo', t, k, k');
      }
    }
  }

  lemma RekeyNone<V>(attrs: map<string, V>, todo: set<string>, new': map<string, V>, key: string)
    requires Rekeyed(attrs, todo, new') && key in attrs && !Separable(key)
    ensures Rekeyed(attrs, todo - {key}, new')
  {
    var todo' := todo - {key};
    assert forall k :: KeyNow(k, todo') == KeyNow(k, todo);
    hide NewKey, Separable, KeyNow;
    forall k' | k' in new' ensures exists k :: CameFrom(attrs, todo', new', k, k') {
      var k :| CameFrom(attrs, todo, new', k, k');
      assert CameFrom(attrs, todo', new', k, k');
    }
  }

  lemma RekeyStart<V>(attrs: map<string, V>)
    ensures Rekeyed(attrs, attrs.Keys, attrs)
  {
    forall k | k in attrs ensures CameFrom(attrs, attrs.Keys, attrs, k, k) {}
  }

  /** The keys from position i on. */
  function From(keys: seq<string>, i: nat): set<string>
    requires i <= |keys|
  {
    set k | k in keys[i..]
  }

  lemma FromNext(keys: seq<string>, i: nat)
    requires i < |keys| && forall a, b :: 0 <= a < b < |keys| ==> keys[a] != keys[b]
    ensures keys[i] in From(keys, i) && From(keys, i + 1) == From(keys, i) - {keys[i]}
  {
    assert keys[i..] == [keys[i]] + keys[i + 1..];
  }

  /** The loop over a snapshot of the keys, in any order. */
  method Separate<V>(attrs: map<string, V>, keys: seq<string>) returns (newAttrs: map<string, V>)
    requires From(keys, 0) == attrs.Keys && forall i, j :: 0 <= i < j < |keys| ==> keys[i] != keys[j]
    ensures Rekeyed(attrs, {}, newAttrs)
  {
    newAttrs := attrs;
    RekeyStart(attrs);
    assert keys[|keys|..] == [];
    assert From(keys, |keys|) == {};
    hide Rekeyed, From, Separable, Replaced;
    for i := 0 to |keys|
      invariant Rekeyed(attrs, From(keys, i), newAttrs) && From(keys, i) <= attrs.Keys
    {
      var key := keys[i];
      FromNext(keys, i);
      if Separable(key) {
        RekeyOne(attrs, From(keys, i), newAttrs, key);
        var value := newAttrs[key];
        newAttrs := (newAttrs - {key})[Replaced(key) := value];
      } else {
        RekeyNone(attrs, From(keys, i), newAttrs, key);
      }
    }
  }

  /** Where no key has a "()", nothing is lost: every attribute is found under its new key. */
  lemma NothingIsLost<V>(attrs: map<string, V>, newAttrs: map<string, V>)
    requires Rekeyed(attrs, {}, newAttrs) && forall k :: k in attrs ==> !Has(k, '(', ')')
    ensures forall k :: k in attrs ==> NewKey(k) in newAttrs && newAttrs[NewKey(k)] == attrs[k]
    ensures forall k, l :: k in attrs && l in attrs && NewKey(k) == NewKey(l) ==> k == l
  {
    forall k, l | k in attrs && l in attrs && NewKey(k) == NewKey(l) ensures k == l {
      NewKeyInjective(k, l);
    }
    hide NewKey, Has;
    forall k | k in attrs ensures NewKey(k) in newAttrs && newAttrs[NewKey(k)] == attrs[k] {
      assert KeyNow(k, {}) in newAttrs;
      var l :| CameFrom(attrs, {}, newAttrs, l, NewKey(k));
    }
  }

  lemma NewKeyInjective(k: string, l: string)
    requires !Has(k, '(', ')') && !Has(l, '(', ')') && NewKey(k) == NewKey(l)
    ensures k == l
  {
    if Separable(k) && Separable(l) {
      ReplacedInjective(k, l);
    } else if Separable(k) {
      NewSeparator(k);
    } else if Separable(l) {
      NewSeparator(l);
    }
  }

  /** A replaced text has the new separator. */
  lemma {:induction false} NewSeparator(s: string)
    requires Has(s, '_', '_')
    ensures Has(Replaced(s), '(', ')')
  {
    var r := Replaced(s);
    if s[0] == '_' && s[1] == '_' {
      assert Pair(r, 0, '(', ')');
    } else {
      var i :| 0 <= i < |s| - 1 && Pair(s, i, '_', '_');
      assert i > 0 && Pair(s[1..], i - 1, '_', '_');
      NewSeparator(s[1..]);
      var j :| 0 <= j < |Replaced(s[1..])| - 1 && Pair(Replaced(s[1..]), j, '(', ')');
      assert Pair(r, j + 1, '(', ')');
    }
  }

  // ---- check_entities_consistency.py ----

  datatype Error = NotInAttrNames(attr: string) | NotInAttrs(name: string)

  function NameOfKey(k: string): string {
    EqForDot(BaseName(k))
  }

  ghost predicate Wrong<V>(attrs: map<string, V>, names: seq<string>, e: Error) {
    match e
    case NotInAttrNames(k) => k in attrs && NameOfKey(k) !in names
    case NotInAttrs(n) => n in names && forall k :: k in attrs ==> NameOfKey(k) != n
  }

  /** check_attrs: it reports exactly what is wrong. */
  method CheckAttrs<V>(attrs: map<string, V>, keys: seq<string>, attrNames: seq<string>) returns (r: seq<Error>)
    requires forall k :: k in keys <==> k in attrs
    ensures forall e :: e in r <==> Wrong(attrs, attrNames, e)
  {
    hide NameOfKey;
    r := [];
    for i := 0 to |keys|
      invariant forall e :: e in r <==> e.NotInAttrNames? && e.attr in keys[..i] && NameOfKey(e.attr) !in attrNames
    {
      assert keys[..i + 1] == keys[..i] + [keys[i]];
      if NameOfKey(keys[i]) !in attrNames {
        r := r + [NotInAttrNames(keys[i])];
      }
    }
    assert keys[..|keys|] == keys;
    ghost var first := r;
    for i := 0 to |attrNames|
      invariant forall e :: e in r <==> e in first || (e.NotInAttrs? && e.name in attrNames[..i] && Wrong(attrs, attrNames, e))
    {
      var name := attrNames[i];
      assert attrNames[..i + 1] == attrNames[..i] + [name];
      var found := false;
      for j := 0 to |keys|
        invariant found <==> exists k :: k in keys[..j] && NameOfKey(k) == name
      {
        assert keys[..j + 1] == keys[..j] + [keys[j]];
        if NameOfKey(keys[j]) == name {
          found := true;
        }
      }
      assert keys[..|keys|] == keys;
      if !found {
        r := r + [NotInAttrs(name)];
      }
    }
    assert attrNames[..|attrNames|] == attrNames;
  }

  // ---- the migration as a whole ----

  /** Attributes whose names the scripts carry through. */
  predicate Carried<V>(a: OldAttr<V>) {
    && '=' !in a.name && !Has(a.name, '(', ')')
    && if a.id.Some? then a.name != [] && !Has(a.name, '_', '_') && a.name[|a.name| - 1] != '_' else !Separable(a.name)
  }

  lemma DotForEqJoin(a: string, b: string)
    ensures DotForEq(a + b) == DotForEq(a) + DotForEq(b)
  {
  }

  lemma DotsBack(n: string)
    ensures EqForDot(DotForEq(n)) == n <==> '=' !in n
  {
    var r := EqForDot(DotForEq(n));
    if '=' in n {
      var i :| 0 <= i < |n| && n[i] == '=';
      assert r[i] == '.';
    } else {
      forall i | 0 <= i < |n| ensures r[i] == n[i] {
        assert n[i] in n;
      }
    }
  }

  lemma SeparableDots(n: string)
    ensures Separable(DotForEq(n)) <==> Separable(n)
  {
    DotsApart(n, '_', '_');
    var d := DotForEq(n);
    assert |n| >= 2 ==> (d[0] == '_' <==> n[0] == '_') && (d[1] == '_' <==> n[1] == '_');
    hide Has;
  }

  /** A key with an id. */
  lemma KeyWithId<V>(a: OldAttr<V>)
    requires a.id.Some?
    ensures Key(a) == DotForEq(a.name) + "__" + DotForEq(a.id.value)
  {
    DotForEqJoin(a.name + "__", a.id.value);
    DotForEqJoin(a.name, "__");
    assert DotForEq("__") == "__";
  }

  /** Without an id: a text whose base name is as long as itself has no "()". */
  lemma ReadBackPlain(n: string)
    ensures NameOfKey(NewKey(DotForEq(n))) == n <==> '=' !in n && !Has(n, '(', ')') && !Separable(n)
  {
    var d := DotForEq(n);
    var k := NewKey(d);
    DotsApart(n, '(', ')');
    DotsBack(n);
    SeparableDots(n);
    BaseEnds(k);
    ReplacedLength(d);
    if Separable(d) {
      NewSeparator(d);
      var i :| 0 <= i < |k| - 1 && Pair(k, i, '(', ')');
      assert |BaseName(k)| < |n|;
    } else if Has(d, '(', ')') {
      var i :| 0 <= i < |k| - 1 && Pair(k, i, '(', ')');
      assert |BaseName(k)| < |n|;
    } else {
      BaseOfPlain(d);
    }
  }

  /** With an id: the first "()" must come right after the name. */
  lemma ReadBackEnds(d: string, x: string)
    requires |BaseName(NewKey(d + "__" + x))| == |d|
    ensures d != [] && !Has(d, '_', '_') && d[|d| - 1] != '_' && !Has(d, '(', ')')
  {
    var s := d + "__" + x;
    var k := NewKey(s);
    BaseEnds(k);
    ReplacedLength(s);
    assert Pair(k, |d|, '(', ')') && s[|d|] == '_';
    assert Separable(s);
    assert d != [];
    forall p | 0 <= p < |d| ensures !Pair(s, p, '_', '_') {
      if Pair(s, p, '_', '_') {
        var q := ReplacedBefore(s, p);
      }
    }
    assert forall p :: 0 <= p < |d| - 1 ==> (Pair(d, p, '_', '_') <==> Pair(s, p, '_', '_'));
    assert !Pair(s, |d| - 1, '_', '_');
    ReplacedKey(d, x);
    forall p | 0 <= p < |d| - 1 ensures !Pair(d, p, '(', ')') {
      assert !Pair(k, p, '(', ')');
    }
  }

  lemma ReadBackWithId(n: string, x: string)
    ensures NameOfKey(NewKey(DotForEq(n) + "__" + x)) == n <==>
      '=' !in n && !Has(n, '(', ')') && n != [] && !Has(n, '_', '_') && n[|n| - 1] != '_'
  {
    var d := DotForEq(n);
    DotsApart(n, '_', '_');
    DotsApart(n, '(', ')');
    DotsBack(n);
    hide Has;
    if |BaseName(NewKey(d + "__" + x))| == |d| {
      ReadBackEnds(d, x);
    }
    if d != [] && !Has(d, '_', '_') && d[|d| - 1] != '_' && !Has(d, '(', ')') {
      SeparableKey(d, x);
      ReplacedKey(d, x);
      BaseOfKey(d, Replaced(x));
    }
  }

  /** From the new key the check reads the attribute's name exactly when the scripts carry it through. */
  lemma NameReadBack<V>(a: OldAttr<V>)
    ensures NameOfKey(NewKey(Key(a))) == a.name <==> Carried(a)
  {
    hide NameOfKey, NewKey, Has, Separable;
    match a.id {
      case None => ReadBackPlain(a.name);
      case Some(id) =>
        KeyWithId(a);
        ReadBackWithId(a.name, DotForEq(id));
    }
  }

  lemma SeparableKey(d: string, x: string)
    requires d != [] && !Has(d, '_', '_') && d[|d| - 1] != '_'
    ensures Separable(d + "__" + x)
  {
    var s := d + "__" + x;
    assert Pair(s, |d|, '_', '_');
    if |d| >= 2 {
      assert !Pair(d, 0, '_', '_');
    }
  }

  /** A converted and rekeyed document passes the check. */
  lemma MigratedIsConsistent<V>(old': seq<OldAttr<V>>, names: seq<string>, attrs: map<string, V>, newAttrs: map<string, V>, e: Error)
    requires forall i :: 0 <= i < |old'| ==> Carried(old'[i])
    requires NamesFrom(old', names) && AttrsFrom(old', attrs) && Rekeyed(attrs, {}, newAttrs)
    ensures !Wrong(newAttrs, names, e)
  {
    match e {
      case NotInAttrNames(k') =>
        if k' in newAttrs {
          hide *;
          KeyHasName(old', names, attrs, newAttrs, k');
        }
      case NotInAttrs(n) =>
        if n in names {
          hide *;
          var k := NameHasKey(old', names, attrs, newAttrs, n);
        }
    }
  }

  lemma KeyHasName<V>(old': seq<OldAttr<V>>, names: seq<string>, attrs: map<string, V>, newAttrs: map<string, V>, k': string)
    requires forall i :: 0 <= i < |old'| ==> Carried(old'[i])
    requires NamesFrom(old', names) && AttrsFrom(old', attrs) && Rekeyed(attrs, {}, newAttrs) && k' in newAttrs
    ensures NameOfKey(k') in names
  {
    hide *;
    var k := OldKeyOf(attrs, newAttrs, k');
    var i := AttrOf(old', attrs, k);
    NameReadBack(old'[i]);
    NameListed(old', names, i);
  }

  lemma OldKeyOf<V>(attrs: map<string, V>, newAttrs: map<string, V>, k': string) returns (k: string)
    requires Rekeyed(attrs, {}, newAttrs) && k' in newAttrs
    ensures k in attrs && NewKey(k) == k'
  {
    hide NewKey;
    k :| CameFrom(attrs, {}, newAttrs, k, k');
  }

  lemma AttrOf<V>(old': seq<OldAttr<V>>, attrs: map<string, V>, k: string) returns (i: nat)
    requires AttrsFrom(old', attrs) && k in attrs
    ensures i < |old'| && Key(old'[i]) == k
  {
    hide Key;
    var j :| IsLast(old', j, k) && attrs[k] == old'[j].rest;
    i := j;
  }

  lemma NameListed<V>(old': seq<OldAttr<V>>, names: seq<string>, i: nat)
    requires NamesFrom(old', names) && i < |old'|
    ensures old'[i].name in names
  {
  }

  lemma NameHasKey<V>(old': seq<OldAttr<V>>, names: seq<string>, attrs: map<string, V>, newAttrs: map<string, V>, n: string) returns (k': string)
    requires forall i :: 0 <= i < |old'| ==> Carried(old'[i])
    requires NamesFrom(old', names) && AttrsFrom(old', attrs) && Rekeyed(attrs, {}, newAttrs) && n in names
    ensures k' in newAttrs && NameOfKey(k') == n
  {
    hide Carried, NewKey, NameOfKey, Key;
    var i :| 0 <= i < |old'| && old'[i].name == n;
    NameReadBack(old'[i]);
    k' := NewKey(Key(old'[i]));
    assert KeyNow(Key(old'[i]), {}) in newAttrs;
  }

  /** Both scripts and the check in a row, on one document. */
  method Migrate<V>(oldAttrs: seq<OldAttr<V>>) returns (r: Conversion<V>, errors: seq<Error>)
    ensures r.Skipped? <==> exists j: nat :: SeenAsDuplicate(oldAttrs, j)
    ensures r.Converted? && (forall i :: 0 <= i < |oldAttrs| ==> Carried(oldAttrs[i])) ==> errors == []
    ensures r.Converted? ==> NamesFrom(oldAttrs, r.attrNames)
    ensures r.Converted? && (forall i :: 0 <= i < |oldAttrs| ==> !Has(RawKey(oldAttrs[i]), '(', ')')) ==>
      forall i :: 0 <= i < |oldAttrs| && IsLast(oldAttrs, i, Key(oldAttrs[i])) ==>
        NewKey(Key(oldAttrs[i])) in r.attrs && r.attrs[NewKey(Key(oldAttrs[i]))] == oldAttrs[i].rest
  {
    hide *;
    r := Convert(oldAttrs);
    errors := [];
    if r.Converted? {
      var attrs := r.attrs;
      var keys := Keys(attrs);
      var newAttrs := Separate(attrs, keys);
      var newKeys := Keys(newAttrs);
      KeysIn(newKeys, newAttrs);
      errors := CheckAttrs(newAttrs, newKeys, r.attrNames);
      if forall i :: 0 <= i < |oldAttrs| ==> Carried(oldAttrs[i]) {
        forall e ensures e !in errors {
          MigratedIsConsistent(oldAttrs, r.attrNames, attrs, newAttrs, e);
        }
        HasItsFirst(errors);
      }
      if forall i :: 0 <= i < |oldAttrs| ==> !Has(RawKey(oldAttrs[i]), '(', ')') {
        MigrateKeeps(oldAttrs, attrs, newAttrs);
      }
      r := Converted(r.attrNames, newAttrs);
    }
  }

  lemma HasItsFirst<T>(s: seq<T>)
    ensures s != [] ==> s[0] in s
  {
  }

  /** The keys of a dictionary, in some order. */
  method Keys<V>(m: map<string, V>) returns (keys: seq<string>)
    ensures From(keys, 0) == m.Keys && forall i, j :: 0 <= i < j < |keys| ==> keys[i] != keys[j]
  {
    keys := [];
    var left := m.Keys;
    while left != {}
      invariant left <= m.Keys && forall k :: k in keys <==> k in m && k !in left
      invariant forall i, j :: 0 <= i < j < |keys| ==> keys[i] != keys[j]
      decreases |left|
    {
      var k :| k in left;
      keys := keys + [k];
      left := left - {k};
    }
    assert keys[0..] == keys;
  }

  lemma KeysIn<V>(keys: seq<string>, m: map<string, V>)
    requires From(keys, 0) == m.Keys
    ensures forall k :: k in keys <==> k in m
  {
    assert keys[0..] == keys;
    assert forall k :: k in keys <==> k in From(keys, 0);
  }

  lemma MigrateKeeps<V>(old': seq<OldAttr<V>>, attrs: map<string, V>, newAttrs: map<string, V>)
    requires AttrsFrom(old', attrs) && Rekeyed(attrs, {}, newAttrs)
    requires forall i :: 0 <= i < |old'| ==> !Has(RawKey(old'[i]), '(', ')')
    ensures forall i :: 0 <= i < |old'| && IsLast(old', i, Key(old'[i])) ==>
      NewKey(Key(old'[i])) in newAttrs && newAttrs[NewKey(Key(old'[i]))] == old'[i].rest
  {
    forall k | k in attrs ensures !Has(k, '(', ')') {
      var i :| IsLast(old', i, k) && attrs[k] == old'[i].rest;
      DotsApart(RawKey(old'[i]), '(', ')');
    }
    hide NewKey, Key, Has, RawKey;
    NothingIsLost(attrs, newAttrs);
    hide Rekeyed;
    forall i | 0 <= i < |old'| && IsLast(old', i, Key(old'[i])) ensures attrs[Key(old'[i])] == old'[i].rest {
      var j :| IsLast(old', j, Key(old'[i])) && attrs[Key(old'[i])] == old'[j].rest;
      assert i == j;
    }
  }

  /** A document with one attribute passes the check exactly when the scripts carry its name through. */
  lemma OneAttribute<V>(a: OldAttr<V>, names: seq<string>, attrs: map<string, V>, newAttrs: map<string, V>)
    requires NamesFrom([a], names) && AttrsFrom([a], attrs) && Rekeyed(attrs, {}, newAttrs)
    ensures (forall e :: !Wrong(newAttrs, names, e)) <==> Carried(a)
  {
    NameReadBack(a);
    hide Carried;
    if Carried(a) {
      forall e ensures !Wrong(newAttrs, names, e) {
        MigratedIsConsistent([a], names, attrs, newAttrs, e);
      }
    } else {
      OnlyName(a, names, attrs, newAttrs);
      assert Wrong(newAttrs, names, NotInAttrNames(NewKey(Key(a))));
    }
  }

  /** The new document has one key, and attrNames has one name. */
  lemma OnlyName<V>(a: OldAttr<V>, names: seq<string>, attrs: map<string, V>, newAttrs: map<string, V>)
    requires NamesFrom([a], names) && AttrsFrom([a], attrs) && Rekeyed(attrs, {}, newAttrs)
    ensures forall k :: k in newAttrs <==> k == NewKey(Key(a))
    ensures forall n :: n in names <==> n == a.name
  {
    hide *;
    OldKeyIs(a, attrs, newAttrs);
    OnlyListed(a, names);
    forall k' | k' in newAttrs ensures k' == NewKey(Key(a)) {
      var k := OldKeyOf(attrs, newAttrs, k');
      var i := AttrOf([a], attrs, k);
    }
  }

  lemma OldKeyIs<V>(a: OldAttr<V>, attrs: map<string, V>, newAttrs: map<string, V>)
    requires AttrsFrom([a], attrs) && Rekeyed(attrs, {}, newAttrs)
    ensures NewKey(Key(a)) in newAttrs
  {
    hide NewKey, Key, CameFrom;
    assert Key([a][0]) in attrs;
    assert KeyNow(Key(a), {}) in newAttrs;
  }

  lemma OnlyListed<V>(a: OldAttr<V>, names: seq<string>)
    requires NamesFrom([a], names)
    ensures forall n :: n in names <==> n == a.name
  {
    assert [a][0].name in names;
  }

  /** A name that ends with '_' does not come through with an id: the check reports both the key and the name. */
  lemma TrailingUnderscoreFails<V>(v: V, names: seq<string>, attrs: map<string, V>, newAttrs: map<string, V>)
    requires var a := OldAttr("a_", Some("x"), v); NamesFrom([a], names) && AttrsFrom([a], attrs) && Rekeyed(attrs, {}, newAttrs)
    ensures Wrong(newAttrs, names, NotInAttrNames("a()_x")) && Wrong(newAttrs, names, NotInAttrs("a_"))
  {
    var a := OldAttr("a_", Some("x"), v);
    OnlyName(a, names, attrs, newAttrs);
    TrailingKey(v);
  }

  lemma TrailingKey<V>(v: V)
    ensures var a := OldAttr("a_", Some("x"), v); NewKey(Key(a)) == "a()_x" && NameOfKey("a()_x") == "a"
  {
    assert Pair("a___x", 1, '_', '_');
    assert DotForEq("a___x") == "a___x" && "a_" + "__" + "x" == "a___x";
    assert "a___x"[1..] == "___x" && "___x"[2..] == "_x" && "_x"[1..] == "x";
    assert Replaced("_x") == "_x" && Replaced("___x") == "()_x" && Replaced("a___x") == "a()_x";
    assert "a()_x"[1..] == "()_x";
    assert BaseName("a()_x") == "a" && EqForDot("a") == "a";
  }
}
