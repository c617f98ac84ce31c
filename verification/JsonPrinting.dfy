/** JsonHelper and the vector and object printers: texts that denote exactly the values they were built from. */
module JsonPrinting {
  import opened Decimals
  import opened Text
  import opened Json

  // ---- toJsonString ----

  method ToJsonString(input: string) returns (ss: string)
    ensures ss == Quoted(input)
  {
    hide EscapeChar;
    ss := ['"'];
    var i := 0;
    assert input[..0] == [];
    while i < |input|
      invariant 0 <= i <= |input|
      invariant ss == ['"'] + Escaped(input[..i])
    {
      EscapedSnoc(input[..i], input[i]);
      assert input[..i + 1] == input[..i] + [input[i]];
      var e := EscapedForm(input[i]);
      ss := ss + e;
      i := i + 1;
    }
    assert input[..i] == input;
    ss := ss + ['"'];
  }

  /** The switch of toJsonString. */
  method EscapedForm(ch: char) returns (e: string)
    ensures e == EscapeChar(ch)
  {
    match ch {
      case '\\' => e := ['\\', '\\'];
      case '"' => e := ['\\', '"'];
      case '\n' => e := ['\\', 'n'];
      case '\r' => e := ['\\', 'r'];
      case '\t' => e := ['\\', 't'];
      case _ =>
        if ch == BACKSPACE {
          e := ['\\', 'b'];
        } else if ch == FORMFEED {
          e := ['\\', 'f'];
        } else if ch <= 0x1F as char {
          e := ['\\', 'u', '0', '0', HEX[ch as int / 16], HEX[ch as int % 16]];
        } else {
          e := [ch];
        }
    }
  }

  lemma {:induction false} EscapedSnoc(s: string, c: char)
    ensures Escaped(s + [c]) == Escaped(s) + EscapeChar(c)
  {
    if s == [] {
      assert ([c])[1..] == [];
    } else {
      assert (s + [c])[1..] == s[1..] + [c];
      EscapedSnoc(s[1..], c);
    }
  }

  // ---- numbers ----

  /** What `ss << value` writes for an integer. */
  function IntText(n: int): string {
    if n < 0 then ['-'] + NatText(-n) else NatText(n)
  }

  lemma NatTextIsInt(n: nat)
    ensures IsInt(NatText(n)) && AllDigits(NatText(n)) && Decimal(NatText(n)) == n
  {
    NatTextBack(n);
  }

  /** Integers are printed as JSON numbers with that value. */
  lemma IntTextIsNumber(n: int)
    ensures IsNumber(IntText(n))
    ensures var t := if n < 0 then IntText(n)[1..] else IntText(n); AllDigits(t) && Decimal(t) == if n < 0 then -n else n
  {
    var m := if n < 0 then -n else n;
    NatTextIsInt(m);
    var t := NatText(m);
    assert t[..|t|] == t && t[|t|..] == [];
    assert IsUnsigned(t, |t|, |t|);
    if n < 0 {
      assert IntText(n)[1..] == t;
    } else {
      assert t[0] != '-';
    }
  }

  lemma {:induction false} SpanOf(s: string, rest: string)
    requires forall i :: 0 <= i < |s| ==> NumberChar(s[i])
    requires rest == [] || !NumberChar(rest[0])
    ensures NumberSpan(s + rest) == |s|
  {
    if s == [] {
      assert s + rest == rest;
    } else {
      assert (s + rest)[1..] == s[1..] + rest;
      SpanOf(s[1..], rest);
    }
  }

  lemma NumberChars(s: string)
    requires IsNumber(s)
    ensures s != [] && (IsDigit(s[0]) || s[0] == '-')
    ensures forall i :: 0 <= i < |s| ==> NumberChar(s[i])
  {
    var m := if s != [] && s[0] == '-' then s[1..] else s;
    var a: nat, b: nat :| IsUnsigned(m, a, b);
    UnsignedCut(m, a, b);
  }

  lemma UnsignedCut(m: string, a: nat, b: nat)
    requires IsUnsigned(m, a, b)
    ensures m != [] && IsDigit(m[0])
    ensures forall i :: 0 <= i < |m| ==> NumberChar(m[i])
  {
    UnsignedChars(m[..a], m[a..b], m[b..]);
    assert m == m[..a] + m[a..b] + m[b..];
  }

  lemma UnsignedChars(x: string, y: string, z: string)
    requires IsInt(x) && IsFraction(y) && IsExponent(z)
    ensures x != [] && IsDigit(x[0])
    ensures forall i :: 0 <= i < |x + y + z| ==> NumberChar((x + y + z)[i])
  {
    forall i | 0 <= i < |y| ensures NumberChar(y[i]) {
      if i > 0 {
        assert y[1..][i - 1] == y[i];
      }
    }
    forall i | 0 <= i < |z| ensures NumberChar(z[i]) {
      if i > 1 {
        assert z[1..][i - 1] == z[i] == z[2..][i - 2];
      } else if i == 1 && Digits(z[1..]) {
        assert z[1..][0] == z[1];
      }
    }
  }

  lemma NumberDenotes(s: string)
    requires IsNumber(s)
    ensures Denotes(s, JNumber(s))
  {
    NumberChars(s);
    forall rest | Delimited(rest) ensures ReadValue(s + rest) == Got(JNumber(s), rest) {
      SpanOf(s, rest);
      ReadsNumber(s, rest);
    }
  }

  lemma ReadsNumber(s: string, rest: string)
    requires IsNumber(s) && s != [] && (IsDigit(s[0]) || s[0] == '-') && NumberSpan(s + rest) == |s|
    ensures ReadValue(s + rest) == Got(JNumber(s), rest)
  {
    hide IsNumber;
    var t := s + rest;
    assert t[0] == s[0] && t[..|s|] == s && t[|s|..] == rest;
    assert |t| >= 4 ==> t[..4][0] == t[0];
    assert |t| >= 5 ==> t[..5][0] == t[0];
    assert "true"[0] == 't' && "false"[0] == 'f' && "null"[0] == 'n';
  }

  lemma LiteralsDenote()
    ensures Denotes("true", JTrue) && Denotes("false", JFalse) && Denotes("null", JNull)
  {
    forall rest | Delimited(rest)
      ensures ReadValue("true" + rest) == Got(JTrue, rest)
      ensures ReadValue("false" + rest) == Got(JFalse, rest)
      ensures ReadValue("null" + rest) == Got(JNull, rest)
    {
      assert ("true" + rest)[..4] == "true" && ("true" + rest)[4..] == rest;
      assert ("false" + rest)[..5] == "false" && ("false" + rest)[5..] == rest;
      assert ("false" + rest)[..4] == "fals";
      assert ("null" + rest)[..4] == "null" && ("null" + rest)[4..] == rest;
      assert |"null" + rest| >= 5 ==> ("null" + rest)[..5][0] == 'n';
      assert "fals"[0] != "true"[0] && "false"[0] == 'f';
    }
  }

  // ---- objects ----

  /** A member as it is written, together with the value its text denotes. */
  datatype Part = Part(key: string, raw: string, value: Json)

  ghost predicate Sound(ps: seq<Part>) {
    forall p :: p in ps ==> Denotes(p.raw, p.value)
  }

  function Pair(p: Part): string {
    Quoted(p.key) + [':'] + p.raw
  }

  function Joined(ps: seq<Part>): string {
    if ps == [] then [] else if |ps| == 1 then Pair(ps[0]) else Pair(ps[0]) + [','] + Joined(ps[1..])
  }

  function MembersOf(ps: seq<Part>): (ms: seq<Member>)
    ensures |ms| == |ps|
  {
    if ps == [] then [] else [Member(ps[0].key, ps[0].value)] + MembersOf(ps[1..])
  }

  lemma {:induction false} JoinedSnoc(ps: seq<Part>, p: Part)
    ensures Joined(ps + [p]) == if ps == [] then Pair(p) else Joined(ps) + [','] + Pair(p)
  {
    if |ps| <= 1 {
      assert |ps| == 1 ==> (ps + [p])[1..] == [p];
    } else {
      assert (ps + [p])[1..] == ps[1..] + [p];
      JoinedSnoc(ps[1..], p);
    }
  }

  lemma {:induction false} MembersSnoc(ps: seq<Part>, p: Part)
    ensures MembersOf(ps + [p]) == MembersOf(ps) + [Member(p.key, p.value)]
  {
    if ps != [] {
      assert (ps + [p])[1..] == ps[1..] + [p];
      MembersSnoc(ps[1..], p);
    }
  }

  lemma ReadKey(p: Part, after: string)
    ensures (Pair(p) + after)[0] == '"'
    ensures ReadBody((Pair(p) + after)[1..]) == Got(p.key, [':'] + (p.raw + after))
  {
    ReadQuoted(p.key, [':'] + (p.raw + after));
    assert Pair(p) + after == Quoted(p.key) + ([':'] + (p.raw + after));
  }

  lemma ReadRaw(p: Part, after: string)
    requires Denotes(p.raw, p.value) && Delimited(after)
    ensures ReadValue(([':'] + (p.raw + after))[1..]) == Got(p.value, after)
  {
    assert ([':'] + (p.raw + after))[1..] == p.raw + after;
  }

  lemma MembersLast(p: Part, rest: string)
    requires Denotes(p.raw, p.value)
    ensures ReadMembers(Pair(p) + (['}'] + rest)) == Got([Member(p.key, p.value)], rest)
  {
    hide Pair, Denotes, ReadValue, ReadBody;
    var after := ['}'] + rest;
    ReadKey(p, after);
    ReadRaw(p, after);
    assert after[1..] == rest;
  }

  lemma MembersMore(p: Part, more: string, ms: seq<Member>, rest: string)
    requires Denotes(p.raw, p.value) && ReadMembers(more) == Got(ms, rest)
    ensures ReadMembers(Pair(p) + ([','] + more)) == Got([Member(p.key, p.value)] + ms, rest)
  {
    hide Pair, Denotes, ReadValue, ReadBody;
    var after := [','] + more;
    ReadKey(p, after);
    ReadRaw(p, after);
    assert after[1..] == more;
  }

  lemma OneMember(p: Part)
    ensures MembersOf([p]) == [Member(p.key, p.value)]
  {
  }

  /** Reading members written one after the other gives those members, in order. */
  lemma {:induction false} ReadJoined(ps: seq<Part>, rest: string)
    requires ps != [] && Sound(ps)
    ensures ReadMembers(Joined(ps) + (['}'] + rest)) == Got(MembersOf(ps), rest)
  {
    hide Pair, Denotes, ReadMembers;
    assert ps[0] in ps;
    if |ps| == 1 {
      MembersLast(ps[0], rest);
      assert ps == [ps[0]];
      OneMember(ps[0]);
    } else {
      ReadJoined(ps[1..], rest);
      var more := Joined(ps[1..]) + (['}'] + rest);
      MembersMore(ps[0], more, MembersOf(ps[1..]), rest);
      assert Joined(ps) + (['}'] + rest) == Pair(ps[0]) + ([','] + more);
    }
  }

  lemma PairStarts(ps: seq<Part>)
    requires ps != []
    ensures Joined(ps) != [] && Joined(ps)[0] == '"'
  {
  }

  lemma ReadObject(ps: seq<Part>, rest: string)
    requires Sound(ps)
    ensures ReadValue(['{'] + Joined(ps) + ['}'] + rest) == Got(JObject(MembersOf(ps)), rest)
  {
    hide *;
    var text := ['{'] + Joined(ps) + ['}'] + rest;
    if ps == [] {
      NothingJoined();
      EmptyObject(rest);
    } else {
      PairStarts(ps);
      ReadJoined(ps, rest);
      assert text[1..] == Joined(ps) + (['}'] + rest);
      FullObject(text, MembersOf(ps), rest);
    }
  }

  lemma NothingJoined()
    ensures Joined([]) == [] && MembersOf([]) == []
  {
  }

  /** An object text denotes the object of its members. */
  lemma ObjectDenotes(ps: seq<Part>)
    requires Sound(ps)
    ensures Denotes(['{'] + Joined(ps) + ['}'], JObject(MembersOf(ps)))
  {
    hide Joined, MembersOf, ReadValue;
    forall rest | Delimited(rest) ensures ReadValue(['{'] + Joined(ps) + ['}'] + rest) == Got(JObject(MembersOf(ps)), rest) {
      ReadObject(ps, rest);
    }
  }

  lemma EmptyObject(rest: string)
    ensures ReadValue(['{'] + [] + ['}'] + rest) == Got(JObject([]), rest)
  {
    assert (['{'] + [] + ['}'] + rest)[2..] == rest;
  }

  lemma FullObject(s: string, ms: seq<Member>, rest: string)
    requires |s| > 1 && s[0] == '{' && s[1] == '"' && ReadMembers(s[1..]) == Got(ms, rest)
    ensures ReadValue(s) == Got(JObject(ms), rest)
  {
    hide ReadMembers;
  }

  /** JsonHelper: members are appended to a stream; the first one is written without a comma. */
  class JsonHelper {
    var ss: string
    var empty: bool
    ghost var parts: seq<Part>

    ghost predicate Valid()
      reads this
    {
      ss == ['{'] + Joined(parts) && (empty <==> parts == []) && Sound(parts)
    }

    /** The members added so far, in order. */
    ghost function Members(): seq<Member>
      reads this
    {
      MembersOf(parts)
    }

    constructor ()
      ensures Valid() && Members() == []
    {
      ss, empty, parts := ['{'], true, [];
    }

    /** `value` is what the raw text denotes. */
    method AddRaw(key: string, raw: string, ghost value: Json)
      requires Valid() && Denotes(raw, value)
      modifies this
      ensures Valid() && Members() == old(Members()) + [Member(key, value)]
    {
      hide Denotes, Quoted;
      ghost var p := Part(key, raw, value);
      JoinedSnoc(parts, p);
      MembersSnoc(parts, p);
      if !empty {
        ss := ss + [','];
      }
      var k := ToJsonString(key);
      ss := ss + k + [':'] + raw;
      empty := false;
      parts := parts + [p];
      assert ss == ['{'] + Joined(parts);
    }

    method AddString(key: string, value: string)
      requires Valid()
      modifies this
      ensures Valid() && Members() == old(Members()) + [Member(key, JString(value))]
    {
      hide *;
      var v := ToJsonString(value);
      QuotedDenotes(value);
      AddRaw(key, v, JString(value));
    }

    /** addNumber for integers. */
    method AddInteger(key: string, value: int)
      requires Valid()
      modifies this
      ensures Valid() && Members() == old(Members()) + [Member(key, JNumber(IntText(value)))]
    {
      hide *;
      IntTextIsNumber(value);
      NumberDenotes(IntText(value));
      AddRaw(key, IntText(value), JNumber(IntText(value)));
    }

    /** addNumber for doubles; `text` is what the stream writes for the value. */
    method AddDecimal(key: string, text: string)
      requires Valid() && IsNumber(text)
      modifies this
      ensures Valid() && Members() == old(Members()) + [Member(key, JNumber(text))]
    {
      hide *;
      NumberDenotes(text);
      AddRaw(key, text, JNumber(text));
    }

    method AddBool(key: string, b: bool)
      requires Valid()
      modifies this
      ensures Valid() && Members() == old(Members()) + [Member(key, if b then JTrue else JFalse)]
    {
      hide *;
      LiteralsDenote();
      AddRaw(key, if b then "true" else "false", if b then JTrue else JFalse);
    }

    /** Closes the object. The closing brace stays in the stream, so the helper is used up. */
    method Str() returns (r: string)
      requires Valid()
      modifies this
      ensures ss == old(ss) + ['}'] && r == ss
      ensures Denotes(r, JObject(old(Members())))
      ensures r[0] == '{' && (r == "{}" <==> old(Members()) == [])
    {
      hide Denotes;
      ObjectDenotes(parts);
      if parts != [] {
        PairStarts(parts);
      }
      ss := ss + ['}'];
      r := ss;
    }
  }

  // ---- arrays ----

  /** An element as it is written, together with the value its text denotes. */
  datatype Item = Item(raw: string, value: Json)

  ghost predicate SoundItems(xs: seq<Item>) {
    forall x :: x in xs ==> Denotes(x.raw, x.value) && x.raw != [] && x.raw[0] != ']'
  }

  function Listed(xs: seq<Item>): string {
    if xs == [] then [] else if |xs| == 1 then xs[0].raw else xs[0].raw + [','] + Listed(xs[1..])
  }

  function ValuesOf(xs: seq<Item>): (vs: seq<Json>)
    ensures |vs| == |xs|
  {
    if xs == [] then [] else [xs[0].value] + ValuesOf(xs[1..])
  }

  lemma {:induction false} ListedSnoc(xs: seq<Item>, x: Item)
    ensures Listed(xs + [x]) == if xs == [] then x.raw else Listed(xs) + [','] + x.raw
  {
    if |xs| <= 1 {
      assert |xs| == 1 ==> (xs + [x])[1..] == [x];
    } else {
      assert (xs + [x])[1..] == xs[1..] + [x];
      ListedSnoc(xs[1..], x);
    }
  }

  lemma ItemsLast(x: Item, rest: string)
    requires Denotes(x.raw, x.value)
    ensures ReadItems(x.raw + ([']'] + rest)) == Got([x.value], rest)
  {
    var after := [']'] + rest;
    assert Delimited(after) && after[1..] == rest;
    assert ReadValue(x.raw + after) == Got(x.value, after);
    hide Denotes, ReadValue;
  }

  lemma ItemsMore(x: Item, more: string, vs: seq<Json>, rest: string)
    requires Denotes(x.raw, x.value) && ReadItems(more) == Got(vs, rest)
    ensures ReadItems(x.raw + ([','] + more)) == Got([x.value] + vs, rest)
  {
    var after := [','] + more;
    assert Delimited(after) && after[1..] == more;
    assert ReadValue(x.raw + after) == Got(x.value, after);
    hide Denotes, ReadValue;
  }

  lemma OneValue(x: Item)
    ensures ValuesOf([x]) == [x.value]
  {
  }

  lemma {:induction false} ReadListed(xs: seq<Item>, rest: string)
    requires xs != [] && SoundItems(xs)
    ensures ReadItems(Listed(xs) + ([']'] + rest)) == Got(ValuesOf(xs), rest)
  {
    hide Denotes, ReadItems;
    assert xs[0] in xs;
    if |xs| == 1 {
      ItemsLast(xs[0], rest);
      assert xs == [xs[0]];
      OneValue(xs[0]);
    } else {
      ReadListed(xs[1..], rest);
      var more := Listed(xs[1..]) + ([']'] + rest);
      ItemsMore(xs[0], more, ValuesOf(xs[1..]), rest);
      assert Listed(xs) + ([']'] + rest) == xs[0].raw + ([','] + more);
    }
  }

  lemma ListedStarts(xs: seq<Item>)
    requires xs != [] && SoundItems(xs)
    ensures Listed(xs) != [] && Listed(xs)[0] != ']'
  {
    assert xs[0] in xs;
  }

  lemma ReadArray(xs: seq<Item>, rest: string)
    requires SoundItems(xs)
    ensures ReadValue(['['] + Listed(xs) + [']'] + rest) == Got(JArray(ValuesOf(xs)), rest)
  {
    hide *;
    var text := ['['] + Listed(xs) + [']'] + rest;
    if xs == [] {
      EmptyArray(rest);
    } else {
      ListedStarts(xs);
      ReadListed(xs, rest);
      assert text[1..] == Listed(xs) + ([']'] + rest);
      FullArray(text, ValuesOf(xs), rest);
    }
  }

  lemma EmptyArray(rest: string)
    ensures Listed([]) == [] && ValuesOf([]) == []
    ensures ReadValue(['['] + [] + [']'] + rest) == Got(JArray([]), rest)
  {
    assert (['['] + [] + [']'] + rest)[2..] == rest;
  }

  lemma FullArray(s: string, vs: seq<Json>, rest: string)
    requires |s| > 1 && s[0] == '[' && s[1] != ']' && ReadItems(s[1..]) == Got(vs, rest)
    ensures ReadValue(s) == Got(JArray(vs), rest)
  {
    hide ReadItems;
  }

  /** An array text denotes the array of its elements. */
  lemma ArrayDenotes(xs: seq<Item>)
    requires SoundItems(xs)
    ensures Denotes(['['] + Listed(xs) + [']'], JArray(ValuesOf(xs)))
  {
    hide Listed, ValuesOf, ReadValue;
    forall rest | Delimited(rest) ensures ReadValue(['['] + Listed(xs) + [']'] + rest) == Got(JArray(ValuesOf(xs)), rest) {
      ReadArray(xs, rest);
    }
  }

  function Strings(list: seq<string>): (vs: seq<Json>)
    ensures |vs| == |list|
  {
    if list == [] then [] else [JString(list[0])] + Strings(list[1..])
  }

  function StringItems(list: seq<string>): seq<Item> {
    if list == [] then [] else [Item(Quoted(list[0]), JString(list[0]))] + StringItems(list[1..])
  }

  lemma {:induction false} StringItemsSound(list: seq<string>)
    ensures SoundItems(StringItems(list)) && ValuesOf(StringItems(list)) == Strings(list)
  {
    if list != [] {
      StringItemsSound(list[1..]);
      QuotedDenotes(list[0]);
      hide Denotes;
    }
  }

  lemma {:induction false} StringItemsSnoc(list: seq<string>, s: string)
    ensures StringItems(list + [s]) == StringItems(list) + [Item(Quoted(s), JString(s))]
  {
    if list != [] {
      assert (list + [s])[1..] == list[1..] + [s];
      StringItemsSnoc(list[1..], s);
    }
  }

  /** vectorToJson for strings. */
  method VectorToJson(list: seq<string>) returns (os: string)
    ensures Denotes(os, JArray(Strings(list)))
  {
    hide *;
    StringItemsSound(list);
    ArrayDenotes(StringItems(list));
    if |list| == 0 {
      NoItems(list);
      return "[]";
    } else if |list| == 1 {
      var s := ToJsonString(list[0]);
      OneItem(list);
      return ['['] + s + [']'];
    }
    var first := ToJsonString(list[0]);
    os := ['['] + first;
    OneItem(list[..1]);
    var i := 1;
    while i != |list|
      invariant 1 <= i <= |list|
      invariant os == ['['] + Listed(StringItems(list[..i]))
    {
      var s := ToJsonString(list[i]);
      MoreItems(list, i);
      os := os + [','] + s;
      i := i + 1;
    }
    assert list[..i] == list;
    os := os + [']'];
  }

  lemma NoItems(list: seq<string>)
    requires |list| == 0
    ensures ['['] + Listed(StringItems(list)) + [']'] == "[]"
  {
  }

  lemma OneItem(list: seq<string>)
    requires |list| == 1
    ensures Listed(StringItems(list)) == Quoted(list[0])
  {
    assert list[1..] == [];
  }

  lemma MoreItems(list: seq<string>, i: nat)
    requires 1 <= i < |list|
    ensures Listed(StringItems(list[..i + 1])) == Listed(StringItems(list[..i])) + [','] + Quoted(list[i])
  {
    assert list[..i + 1] == list[..i] + [list[i]];
    StringItemsSnoc(list[..i], list[i]);
    ListedSnoc(StringItems(list[..i]), Item(Quoted(list[i]), JString(list[i])));
  }

  // ---- string maps ----

  /** The members of a std::map<std::string, std::string> in iteration order. */
  function MapMembers(keys: seq<string>, list: map<string, string>): (ms: seq<Member>)
    requires forall k :: k in keys ==> k in list
    ensures |ms| == |keys|
  {
    if keys == [] then [] else [Member(keys[0], JString(list[keys[0]]))] + MapMembers(keys[1..], list)
  }

  lemma {:induction false} MapMembersSnoc(keys: seq<string>, list: map<string, string>, k: string)
    requires (forall j :: j in keys ==> j in list) && k in list
    ensures MapMembers(keys + [k], list) == MapMembers(keys, list) + [Member(k, JString(list[k]))]
  {
    if keys != [] {
      assert (keys + [k])[1..] == keys[1..] + [k];
      MapMembersSnoc(keys[1..], list, k);
    }
  }

  /** objectToJson: the members come out sorted by key, each key once. */
  method ObjectToJson(list: map<string, string>) returns (os: string)
    ensures Denotes(os, JObject(MapMembers(SortedKeys(list.Keys), list)))
  {
    hide *;
    var keys := SortedKeys(list.Keys);
    ghost var parts: seq<Part> := [];
    var firstTime := true;
    os := ['{'];
    var i := 0;
    EmptyMap(list);
    assert keys[..0] == [];
    while i < |keys|
      invariant 0 <= i <= |keys|
      invariant MapWritten(os, firstTime, parts, keys[..i], list)
    {
      var key := keys[i];
      var k := ToJsonString(key);
      var v := ToJsonString(list[key]);
      NextMember(os, firstTime, parts, keys[..i], list, key);
      assert keys[..i + 1] == keys[..i] + [key];
      parts := parts + [Part(key, v, JString(list[key]))];
      if firstTime {
        firstTime := false;
      } else {
        os := os + [','];
      }
      os := os + k + [':'] + v;
      i := i + 1;
    }
    assert keys[..i] == keys;
    os := os + ['}'];
    AllWritten(os, firstTime, parts, keys, list);
  }

  ghost predicate MapWritten(os: string, firstTime: bool, parts: seq<Part>, keys: seq<string>, list: map<string, string>) {
    && os == ['{'] + Joined(parts) && (firstTime <==> parts == []) && Sound(parts)
    && (forall k :: k in keys ==> k in list) && MembersOf(parts) == MapMembers(keys, list)
  }

  lemma EmptyMap(list: map<string, string>)
    ensures MapWritten(['{'], true, [], [], list)
  {
  }

  lemma NextMember(os: string, firstTime: bool, parts: seq<Part>, keys: seq<string>, list: map<string, string>, key: string)
    requires MapWritten(os, firstTime, parts, keys, list) && key in list
    ensures var v := Quoted(list[key]);
      MapWritten((if firstTime then os else os + [',']) + Quoted(key) + [':'] + v, false,
                 parts + [Part(key, v, JString(list[key]))], keys + [key], list)
  {
    hide Denotes, Quoted;
    var p := Part(key, Quoted(list[key]), JString(list[key]));
    QuotedDenotes(list[key]);
    JoinedSnoc(parts, p);
    MembersSnoc(parts, p);
    MapMembersSnoc(keys, list, key);
  }

  lemma AllWritten(os: string, firstTime: bool, parts: seq<Part>, keys: seq<string>, list: map<string, string>)
    requires os != [] && os[|os| - 1] == '}' && MapWritten(os[..|os| - 1], firstTime, parts, keys, list)
    ensures Denotes(os, JObject(MapMembers(keys, list)))
  {
    ObjectDenotes(parts);
    assert os == os[..|os| - 1] + ['}'];
  }
}
