/** How subscriptions are printed: nested JsonHelpers driven by conditional add calls. */
module SubscriptionJson {
  import opened Decimals
  import opened Text
  import opened Json
  import opened JsonPrinting

  /** How doubles are written: isodate2str for dates, the fixed notation of the stream for numbers. */
  datatype Formats = Formats(date: real -> string, decimal: real -> string)

  ghost predicate GoodFormats(f: Formats) {
    forall x :: IsNumber(f.decimal(x))
  }

  datatype EntID = EntID(id: string, idPattern: string, entityType: string, typePattern: string)
  /** `verb` is None for NOVERB. */
  datatype HttpInfo = HttpInfo(url: string, custom: bool, payload: string, verb: Option<string>, qs: map<string, string>, headers: map<string, string>)
  datatype Expression = Expression(q: string, mq: string, geometry: string, coords: string, georel: string)
  datatype Condition = Condition(attributes: seq<string>, expression: Expression)
  datatype Subject = Subject(entities: seq<EntID>, condition: Condition)
  datatype Notification = Notification(
    attributes: seq<string>, metadata: seq<string>, blacklist: bool, timesSent: int, lastNotification: real,
    httpInfo: HttpInfo, lastFailure: real, lastSuccess: real)
  datatype Subscription = Subscription(
    id: string, description: string, subject: Subject, expires: real, status: string, notification: Notification,
    throttling: real, attrsFormat: string)

  // ---- the value a subscription is printed as ----

  function Opt(key: string, v: string): seq<Member> {
    if v == "" then [] else [Member(key, JString(v))]
  }

  function When(b: bool, key: string, v: Json): seq<Member> {
    if b then [Member(key, v)] else []
  }

  function EntIDMembers(e: EntID): seq<Member> {
    Opt("id", e.id) + Opt("idPattern", e.idPattern) + Opt("type", e.entityType) + Opt("typePattern", e.typePattern)
  }

  function EntIDs(es: seq<EntID>): (vs: seq<Json>)
    ensures |vs| == |es|
  {
    if es == [] then [] else [JObject(EntIDMembers(es[0]))] + EntIDs(es[1..])
  }

  function MapJson(m: map<string, string>): Json {
    JObject(MapMembers(SortedKeys(m.Keys), m))
  }

  function HttpMembers(h: HttpInfo): seq<Member> {
    [Member("url", JString(h.url))] + (if h.custom then CustomMembers(h) else [])
  }

  function CustomMembers(h: HttpInfo): seq<Member> {
    Opt("payload", h.payload)
    + (if h.verb.Some? then [Member("method", JString(h.verb.value))] else [])
    + When(h.qs != map[], "qs", MapJson(h.qs))
    + When(h.headers != map[], "headers", MapJson(h.headers))
  }

  function ExpressionMembers(e: Expression): seq<Member> {
    Opt("q", e.q) + Opt("mq", e.mq) + Opt("geometry", e.geometry) + Opt("coords", e.coords) + Opt("georel", e.georel)
  }

  function ConditionMembers(c: Condition): seq<Member> {
    [Member("attrs", JArray(Strings(c.attributes)))]
    + When(ExpressionMembers(c.expression) != [], "expression", JObject(ExpressionMembers(c.expression)))
  }

  function SubjectMembers(s: Subject): seq<Member> {
    [Member("entities", JArray(EntIDs(s.entities))), Member("condition", JObject(ConditionMembers(s.condition)))]
  }

  function NotificationMembers(n: Notification, attrsFormat: string, f: Formats): seq<Member> {
    When(n.timesSent > 0, "timesSent", JNumber(IntText(n.timesSent)))
    + When(n.lastNotification > 0.0, "lastNotification", JString(f.date(n.lastNotification)))
    + [Member(if n.blacklist then "exceptAttrs" else "attrs", JArray(Strings(n.attributes)))]
    + [Member("attrsFormat", JString(attrsFormat))]
    + [Member(if n.httpInfo.custom then "httpCustom" else "http", JObject(HttpMembers(n.httpInfo)))]
    + When(n.metadata != [], "metadata", JArray(Strings(n.metadata)))
    + When(n.lastFailure > 0.0, "lastFailure", JString(f.date(n.lastFailure)))
    + When(n.lastSuccess > 0.0, "lastSuccess", JString(f.date(n.lastSuccess)))
  }

  /** (int64_t) 9e18: expiration of permanent subscriptions in old databases. */
  const OLD_PERMANENT: real := 9000000000000000000.0

  function StatusOf(s: Subscription): string {
    if s.notification.lastFailure > 0.0 && s.notification.lastFailure > s.notification.lastSuccess then "failed" else s.status
  }

  function SubscriptionMembers(s: Subscription, f: Formats): seq<Member> {
    [Member("id", JString(s.id))]
    + Opt("description", s.description)
    + When(s.expires < OLD_PERMANENT, "expires", JString(f.date(s.expires)))
    + [Member("status", JString(StatusOf(s)))]
    + [Member("subject", JObject(SubjectMembers(s.subject)))]
    + [Member("notification", JObject(NotificationMembers(s.notification, s.attrsFormat, f)))]
    + When(s.throttling > 0.0, "throttling", JNumber(f.decimal(s.throttling)))
  }

  // ---- the code ----

  method AddOpt(h: JsonHelper, key: string, v: string)
    requires h.Valid()
    modifies h
    ensures h.Valid() && h.Members() == old(h.Members()) + Opt(key, v)
  {
    hide h.Valid, h.Members;
    if v != "" {
      h.AddString(key, v);
    }
  }

  /** A conditional addDate: the date is written as a string. */
  method AddDateWhen(h: JsonHelper, b: bool, key: string, date: string)
    requires h.Valid()
    modifies h
    ensures h.Valid() && h.Members() == old(h.Members()) + When(b, key, JString(date))
  {
    hide h.Valid, h.Members;
    if b {
      h.AddString(key, date);
    }
  }

  /** EntID::toJson */
  method EntIDToJson(e: EntID) returns (r: string)
    ensures Denotes(r, JObject(EntIDMembers(e))) && r != [] && r[0] == '{'
  {
    hide Denotes, Opt, JsonHelper.Valid, JsonHelper.Members;
    var jh := new JsonHelper();
    AddOpt(jh, "id", e.id);
    AddOpt(jh, "idPattern", e.idPattern);
    AddOpt(jh, "type", e.entityType);
    AddOpt(jh, "typePattern", e.typePattern);
    assert jh.Members() == EntIDMembers(e);
    r := jh.Str();
  }

  lemma {:induction false} EntIDsSnoc(es: seq<EntID>, e: EntID)
    ensures EntIDs(es + [e]) == EntIDs(es) + [JObject(EntIDMembers(e))]
  {
    if es != [] {
      assert (es + [e])[1..] == es[1..] + [e];
      EntIDsSnoc(es[1..], e);
    }
  }

  lemma {:induction false} ValuesSnoc(xs: seq<Item>, x: Item)
    ensures ValuesOf(xs + [x]) == ValuesOf(xs) + [x.value]
  {
    if xs != [] {
      assert (xs + [x])[1..] == xs[1..] + [x];
      ValuesSnoc(xs[1..], x);
    }
  }

  /** What the loop of the vectorToJson template has written after the elements `es`. */
  ghost predicate Listing(ss: string, xs: seq<Item>, es: seq<EntID>) {
    ss == ['['] + Listed(xs) && SoundItems(xs) && ValuesOf(xs) == EntIDs(es)
  }

  lemma ListingNext(ss: string, xs: seq<Item>, es: seq<EntID>, e: EntID, raw: string)
    requires Listing(ss, xs, es) && Denotes(raw, JObject(EntIDMembers(e))) && raw != [] && raw[0] == '{'
    ensures Listing((if xs == [] then ss else ss + [',']) + raw, xs + [Item(raw, JObject(EntIDMembers(e)))], es + [e])
  {
    hide Denotes, EntIDMembers;
    var x := Item(raw, JObject(EntIDMembers(e)));
    ListedSnoc(xs, x);
    ValuesSnoc(xs, x);
    EntIDsSnoc(es, e);
  }

  lemma ListingStart()
    ensures Listing(['['], [], [])
  {
  }

  lemma ListingEnd(ss: string, xs: seq<Item>, es: seq<EntID>)
    requires Listing(ss, xs, es)
    ensures Denotes(ss + [']'], JArray(EntIDs(es)))
  {
    ArrayDenotes(xs);
  }

  /** The vectorToJson template, for a vector of EntID. */
  method EntIDVectorToJson(list: seq<EntID>) returns (ss: string)
    ensures Denotes(ss, JArray(EntIDs(list)))
  {
    hide *;
    ListingStart();
    if |list| == 0 {
      ListingEnd(['['], [], list);
      assert ['['] + [']'] == "[]";
      return "[]";
    }
    var raw := EntIDToJson(list[0]);
    ss := ['['] + raw;
    ListingNext(['['], [], [], list[0], raw);
    ghost var xs := [Item(raw, JObject(EntIDMembers(list[0])))];
    assert [] + xs == xs && [] + [list[0]] == list[..1];
    var i := 1;
    while i != |list|
      invariant 1 <= i <= |list| && xs != []
      invariant Listing(ss, xs, list[..i])
    {
      raw := EntIDToJson(list[i]);
      ListingNext(ss, xs, list[..i], list[i], raw);
      assert list[..i + 1] == list[..i] + [list[i]];
      xs := xs + [Item(raw, JObject(EntIDMembers(list[i])))];
      ss := ss + [','] + raw;
      i := i + 1;
    }
    assert list[..i] == list;
    ListingEnd(ss, xs, list);
    ss := ss + [']'];
  }

  /** HttpInfo::toJson */
  method HttpInfoToJson(h: HttpInfo) returns (r: string)
    ensures Denotes(r, JObject(HttpMembers(h)))
  {
    hide Denotes, Opt, MapJson, JsonHelper.Valid, JsonHelper.Members;
    var jh := new JsonHelper();
    jh.AddString("url", h.url);
    if h.custom {
      AddOpt(jh, "payload", h.payload);
      if h.verb.Some? {
        jh.AddString("method", h.verb.value);
      }
      if h.qs != map[] {
        var qs := MapToJson(h.qs);
        jh.AddRaw("qs", qs, MapJson(h.qs));
      }
      if h.headers != map[] {
        var headers := MapToJson(h.headers);
        jh.AddRaw("headers", headers, MapJson(h.headers));
      }
    }
    assert jh.Members() == HttpMembers(h);
    r := jh.Str();
  }

  method MapToJson(m: map<string, string>) returns (r: string)
    ensures Denotes(r, MapJson(m))
  {
    hide Denotes, MapMembers;
    r := ObjectToJson(m);
  }

  /** Condition::toJson */
  method ConditionToJson(c: Condition) returns (r: string)
    ensures Denotes(r, JObject(ConditionMembers(c)))
  {
    hide Denotes, Opt, Strings, JsonHelper.Valid, JsonHelper.Members;
    var jh := new JsonHelper();
    var attrs := VectorToJson(c.attributes);
    jh.AddRaw("attrs", attrs, JArray(Strings(c.attributes)));
    var e := c.expression;
    var jhe := new JsonHelper();
    AddOpt(jhe, "q", e.q);
    AddOpt(jhe, "mq", e.mq);
    AddOpt(jhe, "geometry", e.geometry);
    AddOpt(jhe, "coords", e.coords);
    AddOpt(jhe, "georel", e.georel);
    assert jhe.Members() == ExpressionMembers(e);
    var expressionString := jhe.Str();
    if expressionString != "{}" {
      jh.AddRaw("expression", expressionString, JObject(ExpressionMembers(e)));
    }
    assert jh.Members() == ConditionMembers(c);
    r := jh.Str();
  }

  /** Subject::toJson */
  method SubjectToJson(s: Subject) returns (r: string)
    ensures Denotes(r, JObject(SubjectMembers(s)))
  {
    hide Denotes, EntIDs, ConditionMembers, JsonHelper.Valid, JsonHelper.Members;
    var jh := new JsonHelper();
    var entities := EntIDVectorToJson(s.entities);
    jh.AddRaw("entities", entities, JArray(EntIDs(s.entities)));
    var condition := ConditionToJson(s.condition);
    jh.AddRaw("condition", condition, JObject(ConditionMembers(s.condition)));
    assert jh.Members() == SubjectMembers(s);
    r := jh.Str();
  }

  /** Notification::toJson */
  method NotificationToJson(n: Notification, attrsFormat: string, f: Formats) returns (r: string)
    ensures Denotes(r, JObject(NotificationMembers(n, attrsFormat, f)))
  {
    hide Denotes, Strings, HttpMembers, IntText, JsonHelper.Valid, JsonHelper.Members;
    var jh := new JsonHelper();
    if n.timesSent > 0 {
      jh.AddInteger("timesSent", n.timesSent);
    }
    ghost var m := When(n.timesSent > 0, "timesSent", JNumber(IntText(n.timesSent)));
    assert jh.Members() == m;
    AddDateWhen(jh, n.lastNotification > 0.0, "lastNotification", f.date(n.lastNotification));
    m := m + When(n.lastNotification > 0.0, "lastNotification", JString(f.date(n.lastNotification)));
    hide When;
    var attributes := VectorToJson(n.attributes);
    if !n.blacklist {
      jh.AddRaw("attrs", attributes, JArray(Strings(n.attributes)));
    } else {
      jh.AddRaw("exceptAttrs", attributes, JArray(Strings(n.attributes)));
    }
    jh.AddString("attrsFormat", attrsFormat);
    m := m + [Member(if n.blacklist then "exceptAttrs" else "attrs", JArray(Strings(n.attributes)))]
           + [Member("attrsFormat", JString(attrsFormat))];
    assert jh.Members() == m;
    var http := HttpInfoToJson(n.httpInfo);
    if n.httpInfo.custom {
      jh.AddRaw("httpCustom", http, JObject(HttpMembers(n.httpInfo)));
    } else {
      jh.AddRaw("http", http, JObject(HttpMembers(n.httpInfo)));
    }
    m := m + [Member(if n.httpInfo.custom then "httpCustom" else "http", JObject(HttpMembers(n.httpInfo)))];
    assert jh.Members() == m;
    AddMetadata(jh, n.metadata);
    AddDateWhen(jh, n.lastFailure > 0.0, "lastFailure", f.date(n.lastFailure));
    AddDateWhen(jh, n.lastSuccess > 0.0, "lastSuccess", f.date(n.lastSuccess));
    assert jh.Members() == NotificationMembers(n, attrsFormat, f);
    r := jh.Str();
  }

  method AddMetadata(h: JsonHelper, metadata: seq<string>)
    requires h.Valid()
    modifies h
    ensures h.Valid() && h.Members() == old(h.Members()) + When(metadata != [], "metadata", JArray(Strings(metadata)))
  {
    hide h.Valid, h.Members, Denotes, Strings;
    if |metadata| > 0 {
      var text := VectorToJson(metadata);
      h.AddRaw("metadata", text, JArray(Strings(metadata)));
    }
  }

  /** Subscription::toJson: the printed document, read back, has exactly the members of the subscription. */
  method SubscriptionToJson(s: Subscription, f: Formats) returns (r: string)
    requires GoodFormats(f)
    ensures Denotes(r, JObject(SubscriptionMembers(s, f)))
    ensures ReadValue(r) == Got(JObject(SubscriptionMembers(s, f)), [])
  {
    hide Denotes, Opt, SubjectMembers, NotificationMembers, IsNumber, ReadValue, JsonHelper.Valid, JsonHelper.Members;
    var jh := new JsonHelper();
    jh.AddString("id", s.id);
    AddOpt(jh, "description", s.description);
    AddDateWhen(jh, s.expires < OLD_PERMANENT, "expires", f.date(s.expires));
    if s.notification.lastFailure > 0.0 && s.notification.lastFailure > s.notification.lastSuccess {
      jh.AddString("status", "failed");
    } else {
      jh.AddString("status", s.status);
    }
    assert jh.Members() == [Member("id", JString(s.id))] + Opt("description", s.description)
      + When(s.expires < OLD_PERMANENT, "expires", JString(f.date(s.expires))) + [Member("status", JString(StatusOf(s)))];
    var subject := SubjectToJson(s.subject);
    jh.AddRaw("subject", subject, JObject(SubjectMembers(s.subject)));
    var notification := NotificationToJson(s.notification, s.attrsFormat, f);
    jh.AddRaw("notification", notification, JObject(NotificationMembers(s.notification, s.attrsFormat, f)));
    if s.throttling > 0.0 {
      jh.AddDecimal("throttling", f.decimal(s.throttling));
    }
    assert jh.Members() == SubscriptionMembers(s, f);
    r := jh.Str();
    DenotesDocument(r, JObject(SubscriptionMembers(s, f)));
  }

  // ---- reading a subscription back ----

  function Field(ms: seq<Member>, key: string): Json {
    if ms == [] then JNull else if ms[0].key == key then ms[0].value else Field(ms[1..], key)
  }

  /** A missing string member stands for the empty string. */
  function TextField(ms: seq<Member>, key: string): string {
    match Field(ms, key) case JString(text) => text case _ => ""
  }

  function MembersIn(v: Json): seq<Member> {
    match v case JObject(ms) => ms case _ => []
  }

  function StringsIn(v: Json): seq<string> {
    match v case JArray(items) => Texts(items) case _ => []
  }

  function Texts(items: seq<Json>): seq<string> {
    if items == [] then [] else [if items[0].JString? then items[0].text else ""] + Texts(items[1..])
  }

  function DecodeEntID(v: Json): EntID {
    var ms := MembersIn(v);
    EntID(TextField(ms, "id"), TextField(ms, "idPattern"), TextField(ms, "type"), TextField(ms, "typePattern"))
  }

  function DecodeEntIDs(items: seq<Json>): seq<EntID> {
    if items == [] then [] else [DecodeEntID(items[0])] + DecodeEntIDs(items[1..])
  }

  function DecodeCondition(v: Json): Condition {
    var ms := MembersIn(v);
    var e := MembersIn(Field(ms, "expression"));
    Condition(StringsIn(Field(ms, "attrs")),
              Expression(TextField(e, "q"), TextField(e, "mq"), TextField(e, "geometry"), TextField(e, "coords"), TextField(e, "georel")))
  }

  function DecodeSubject(v: Json): Subject {
    var ms := MembersIn(v);
    Subject(match Field(ms, "entities") case JArray(items) => DecodeEntIDs(items) case _ => [],
            DecodeCondition(Field(ms, "condition")))
  }

  lemma {:induction false} TextsBack(list: seq<string>)
    ensures Texts(Strings(list)) == list
  {
    if list != [] {
      TextsBack(list[1..]);
    }
  }

  lemma FieldSkips(a: seq<Member>, b: seq<Member>, key: string)
    requires |a| <= 1
    ensures Field(a + b, key) == if a != [] && a[0].key == key then a[0].value else Field(b, key)
  {
    if a != [] {
      assert (a + b)[1..] == b;
    } else {
      assert a + b == b;
    }
  }

  ghost predicate NoNulls(ms: seq<Member>) {
    forall m :: m in ms ==> m.value != JNull
  }

  lemma {:induction false} FieldJoined(a: seq<Member>, b: seq<Member>, key: string)
    requires NoNulls(a)
    ensures Field(a + b, key) == if Field(a, key) != JNull then Field(a, key) else Field(b, key)
  {
    if a == [] {
      assert a + b == b;
    } else {
      assert a[0] in a && (a + b)[1..] == a[1..] + b;
      FieldJoined(a[1..], b, key);
    }
  }

  /** One more conditional member. */
  lemma OneMore(ms: seq<Member>, on: bool, key: string, v: Json)
    requires NoNulls(ms) && v != JNull
    ensures NoNulls(ms + When(on, key, v))
    ensures forall k :: Field(ms + When(on, key, v), k)
                     == if Field(ms, k) != JNull then Field(ms, k) else if on && k == key then v else JNull
  {
    forall k ensures Field(ms + When(on, key, v), k) == if Field(ms, k) != JNull then Field(ms, k) else if on && k == key then v else JNull {
      FieldJoined(ms, When(on, key, v), k);
      assert When(on, key, v) != [] ==> When(on, key, v)[1..] == [];
    }
  }

  lemma NoMembers()
    ensures NoNulls([]) && forall k :: Field([], k) == JNull
  {
  }

  lemma OneMoreText(ms: seq<Member>, key: string, v: string)
    requires NoNulls(ms)
    ensures NoNulls(ms + Opt(key, v))
    ensures forall k :: Field(ms + Opt(key, v), k)
                     == if Field(ms, k) != JNull then Field(ms, k) else if v != "" && k == key then JString(v) else JNull
  {
    hide Field, NoNulls;
    OneMore(ms, v != "", key, JString(v));
  }

  lemma EntIDBack(e: EntID)
    ensures DecodeEntID(JObject(EntIDMembers(e))) == e
  {
    DistinctFour();
    NoMembers();
    hide Field, NoNulls, Opt;
    var m1 := [] + Opt("id", e.id);
    var m2 := m1 + Opt("idPattern", e.idPattern);
    var m3 := m2 + Opt("type", e.entityType);
    OneMoreText([], "id", e.id);
    OneMoreText(m1, "idPattern", e.idPattern);
    OneMoreText(m2, "type", e.entityType);
    OneMoreText(m3, "typePattern", e.typePattern);
    assert m1 == Opt("id", e.id);
  }

  lemma DistinctFour()
    ensures "id" != "idPattern" && "id" != "type" && "id" != "typePattern"
    ensures "idPattern" != "type" && "idPattern" != "typePattern" && "type" != "typePattern"
  {
    assert |"id"| == 2 && |"idPattern"| == 9 && |"type"| == 4 && |"typePattern"| == 11;
  }

  lemma DistinctFive()
    ensures "q" != "mq" && "q" != "geometry" && "q" != "coords" && "q" != "georel" && "mq" != "geometry" && "mq" != "coords"
    ensures "mq" != "georel" && "geometry" != "coords" && "geometry" != "georel" && "coords" != "georel"
  {
    assert |"q"| == 1 && |"mq"| == 2 && |"geometry"| == 8 && |"coords"| == 6 && |"georel"| == 6;
    assert "coords"[0] != "georel"[0];
  }

  lemma ExpressionBack(e: Expression)
    ensures var ms := ExpressionMembers(e);
      Expression(TextField(ms, "q"), TextField(ms, "mq"), TextField(ms, "geometry"), TextField(ms, "coords"), TextField(ms, "georel")) == e
  {
    DistinctFive();
    NoMembers();
    hide Field, NoNulls, Opt;
    var m1 := [] + Opt("q", e.q);
    var m2 := m1 + Opt("mq", e.mq);
    var m3 := m2 + Opt("geometry", e.geometry);
    var m4 := m3 + Opt("coords", e.coords);
    OneMoreText([], "q", e.q);
    OneMoreText(m1, "mq", e.mq);
    OneMoreText(m2, "geometry", e.geometry);
    OneMoreText(m3, "coords", e.coords);
    OneMoreText(m4, "georel", e.georel);
    assert m1 == Opt("q", e.q);
  }

  lemma ConditionBack(c: Condition)
    ensures DecodeCondition(JObject(ConditionMembers(c))) == c
  {
    var ms := ConditionMembers(c);
    var e := ExpressionMembers(c.expression);
    var w := When(e != [], "expression", JObject(e));
    FieldSkips([Member("attrs", JArray(Strings(c.attributes)))], w, "attrs");
    FieldSkips([Member("attrs", JArray(Strings(c.attributes)))], w, "expression");
    assert |"attrs"| != |"expression"|;
    TextsBack(c.attributes);
    ExpressionBack(c.expression);
    hide ExpressionMembers, Texts;
    assert MembersIn(Field(w, "expression")) == e;
  }

  lemma {:induction false} EntIDsBack(es: seq<EntID>)
    ensures DecodeEntIDs(EntIDs(es)) == es
  {
    if es != [] {
      EntIDBack(es[0]);
      EntIDsBack(es[1..]);
    }
  }

  /** A printed subject, read back and decoded, is the subject: no field is lost, swapped or altered. */
  lemma SubjectBack(s: Subject)
    ensures DecodeSubject(JObject(SubjectMembers(s))) == s
  {
    hide DecodeCondition, ConditionMembers, EntIDs, DecodeEntIDs;
    var ms := SubjectMembers(s);
    var entities, condition := Member("entities", JArray(EntIDs(s.entities))), Member("condition", JObject(ConditionMembers(s.condition)));
    assert ms == [entities] + [condition];
    FieldSkips([entities], [condition], "entities");
    FieldSkips([entities], [condition], "condition");
    assert "entities"[0] != "condition"[0];
    EntIDsBack(s.entities);
    ConditionBack(s.condition);
    assert Field([condition], "condition") == condition.value;
  }

  // ---- the receiver of the notifications ----

  function OptText(v: Json): Option<string> {
    match v case JString(text) => Some(text) case _ => None
  }

  function MapOf(ms: seq<Member>): map<string, string> {
    if ms == [] then map[] else MapOf(ms[1..])[ms[0].key := TextField(ms, ms[0].key)]
  }

  lemma {:induction false} MapOfMembers(ks: seq<string>, m: map<string, string>)
    requires forall k :: k in ks ==> k in m
    ensures var d := MapOf(MapMembers(ks, m)); forall k :: k in d <==> k in ks
    ensures var d := MapOf(MapMembers(ks, m)); forall k :: k in d ==> d[k] == m[k]
  {
    if ks != [] {
      MapOfMembers(ks[1..], m);
      var ms := MapMembers(ks, m);
      assert ms[1..] == MapMembers(ks[1..], m) && ms[0] == Member(ks[0], JString(m[ks[0]]));
      assert TextField(ms, ks[0]) == m[ks[0]];
    }
  }

  lemma MapBack(m: map<string, string>)
    ensures MapOf(MembersIn(MapJson(m))) == m
  {
    MapOfMembers(SortedKeys(m.Keys), m);
    hide MapOf, MapMembers, SortedKeys, StrictlySorted;
  }

  /** `custom` is not among the members: it shows in the key the object is printed under. */
  function DecodeHttp(v: Json, custom: bool): HttpInfo {
    var ms := MembersIn(v);
    HttpInfo(TextField(ms, "url"), custom, TextField(ms, "payload"), OptText(Field(ms, "method")),
             MapOf(MembersIn(Field(ms, "qs"))), MapOf(MembersIn(Field(ms, "headers"))))
  }

  /** What is printed of the receiver: without `custom` only the url. */
  function PrintedHttp(h: HttpInfo): HttpInfo {
    if h.custom then h else HttpInfo(h.url, false, "", None, map[], map[])
  }

  lemma DistinctHttp()
    ensures "url" != "payload" && "url" != "method" && "url" != "qs" && "url" != "headers" && "payload" != "method"
    ensures "payload" != "qs" && "payload" != "headers" && "method" != "qs" && "method" != "headers" && "qs" != "headers"
  {
    assert |"url"| == 3 && |"payload"| == 7 && |"method"| == 6 && |"qs"| == 2 && |"headers"| == 7 && "payload"[0] != "headers"[0];
  }

  lemma HttpShown(h: HttpInfo, k: string)
    ensures Field(HttpMembers(h), k)
         == if k == "url" then JString(h.url)
            else if !h.custom then JNull
            else if k == "payload" && h.payload != "" then JString(h.payload)
            else if k == "method" && h.verb.Some? then JString(h.verb.value)
            else if k == "qs" && h.qs != map[] then MapJson(h.qs)
            else if k == "headers" && h.headers != map[] then MapJson(h.headers)
            else JNull
  {
    DistinctHttp();
    assert MapJson(h.qs) != JNull && MapJson(h.headers) != JNull;
    NoMembers();
    hide MapJson, Field, NoNulls, Opt;
    var m2 := [] + Opt("payload", h.payload);
    var verb := if h.verb.Some? then JString(h.verb.value) else JString("");
    var m3 := m2 + When(h.verb.Some?, "method", verb);
    var m4 := m3 + When(h.qs != map[], "qs", MapJson(h.qs));
    OneMoreText([], "payload", h.payload);
    OneMore(m2, h.verb.Some?, "method", verb);
    OneMore(m3, h.qs != map[], "qs", MapJson(h.qs));
    OneMore(m4, h.headers != map[], "headers", MapJson(h.headers));
    assert m2 == Opt("payload", h.payload);
    FieldSkips([Member("url", JString(h.url))], if h.custom then CustomMembers(h) else [], k);
  }

  /** The receiver is read back as far as it is printed. */
  lemma HttpBack(h: HttpInfo)
    ensures DecodeHttp(JObject(HttpMembers(h)), h.custom) == PrintedHttp(h)
  {
    DistinctHttp();
    HttpShown(h, "url");
    HttpShown(h, "payload");
    HttpShown(h, "method");
    HttpShown(h, "qs");
    HttpShown(h, "headers");
    MapBack(h.qs);
    MapBack(h.headers);
    assert MapOf([]) == map[];
    hide MapJson, HttpMembers, Field, MapOf;
  }

  // ---- the notification part ----

  /** What a client sees of the notification part. */
  datatype NotificationView = NotificationView(
    timesSent: int, lastNotification: Option<string>, blacklist: bool, attributes: seq<string>, attrsFormat: string,
    httpInfo: HttpInfo, metadata: seq<string>, lastFailure: Option<string>, lastSuccess: Option<string>)

  function NumberIn(v: Json): int {
    match v case JNumber(text) => (if AllDigits(text) then Decimal(text) else 0) case _ => 0
  }

  function DecodeNotification(v: Json): NotificationView {
    var ms := MembersIn(v);
    var blacklist, custom := Field(ms, "exceptAttrs") != JNull, Field(ms, "httpCustom") != JNull;
    NotificationView(
      NumberIn(Field(ms, "timesSent")), OptText(Field(ms, "lastNotification")),
      blacklist, StringsIn(Field(ms, if blacklist then "exceptAttrs" else "attrs")), TextField(ms, "attrsFormat"),
      DecodeHttp(Field(ms, if custom then "httpCustom" else "http"), custom), StringsIn(Field(ms, "metadata")),
      OptText(Field(ms, "lastFailure")), OptText(Field(ms, "lastSuccess")))
  }

  /** A date that has been set. */
  function DateSeen(date: real, f: Formats): Option<string> {
    if date > 0.0 then Some(f.date(date)) else None
  }

  function SeenNotification(n: Notification, attrsFormat: string, f: Formats): NotificationView {
    NotificationView(
      if n.timesSent > 0 then n.timesSent else 0, DateSeen(n.lastNotification, f), n.blacklist, n.attributes, attrsFormat,
      PrintedHttp(n.httpInfo), n.metadata, DateSeen(n.lastFailure, f), DateSeen(n.lastSuccess, f))
  }

  lemma DistinctNotification()
    ensures "timesSent" !in ["lastNotification", "exceptAttrs", "attrs", "attrsFormat", "httpCustom", "http", "metadata", "lastFailure", "lastSuccess"]
    ensures "lastNotification" !in ["exceptAttrs", "attrs", "attrsFormat", "httpCustom", "http", "metadata", "lastFailure", "lastSuccess"]
    ensures "exceptAttrs" !in ["attrs", "attrsFormat", "httpCustom", "http", "metadata", "lastFailure", "lastSuccess"]
    ensures "attrs" !in ["attrsFormat", "httpCustom", "http", "metadata", "lastFailure", "lastSuccess"]
    ensures "attrsFormat" !in ["httpCustom", "http", "metadata", "lastFailure", "lastSuccess"]
    ensures "httpCustom" !in ["http", "metadata", "lastFailure", "lastSuccess"]
    ensures "http" !in ["metadata", "lastFailure", "lastSuccess"]
    ensures "metadata" !in ["lastFailure", "lastSuccess"] && "lastFailure" != "lastSuccess"
  {
    assert |"timesSent"| == 9 && |"lastNotification"| == 16 && |"exceptAttrs"| == 11 && |"attrs"| == 5 && |"attrsFormat"| == 11;
    assert |"httpCustom"| == 10 && |"http"| == 4 && |"metadata"| == 8 && |"lastFailure"| == 11 && |"lastSuccess"| == 11;
    assert "exceptAttrs"[0] == 'e' && "attrsFormat"[0] == 'a' && "lastFailure"[0] == 'l' && "lastSuccess"[0] == 'l';
    assert "lastFailure"[4] == 'F' && "lastSuccess"[4] == 'S';
  }

  lemma NotificationShown(n: Notification, attrsFormat: string, f: Formats, k: string)
    ensures Field(NotificationMembers(n, attrsFormat, f), k)
         == if k == "timesSent" && n.timesSent > 0 then JNumber(IntText(n.timesSent))
            else if k == "lastNotification" && n.lastNotification > 0.0 then JString(f.date(n.lastNotification))
            else if k == (if n.blacklist then "exceptAttrs" else "attrs") then JArray(Strings(n.attributes))
            else if k == "attrsFormat" then JString(attrsFormat)
            else if k == (if n.httpInfo.custom then "httpCustom" else "http") then JObject(HttpMembers(n.httpInfo))
            else if k == "metadata" && n.metadata != [] then JArray(Strings(n.metadata))
            else if k == "lastFailure" && n.lastFailure > 0.0 then JString(f.date(n.lastFailure))
            else if k == "lastSuccess" && n.lastSuccess > 0.0 then JString(f.date(n.lastSuccess))
            else JNull
  {
    NoMembers();
    hide Field, NoNulls, Strings, HttpMembers, IntText;
    var attrs, http := if n.blacklist then "exceptAttrs" else "attrs", if n.httpInfo.custom then "httpCustom" else "http";
    var m1 := [] + When(n.timesSent > 0, "timesSent", JNumber(IntText(n.timesSent)));
    var m2 := m1 + When(n.lastNotification > 0.0, "lastNotification", JString(f.date(n.lastNotification)));
    var m3 := m2 + When(true, attrs, JArray(Strings(n.attributes)));
    var m4 := m3 + When(true, "attrsFormat", JString(attrsFormat));
    var m5 := m4 + When(true, http, JObject(HttpMembers(n.httpInfo)));
    var m6 := m5 + When(n.metadata != [], "metadata", JArray(Strings(n.metadata)));
    var m7 := m6 + When(n.lastFailure > 0.0, "lastFailure", JString(f.date(n.lastFailure)));
    OneMore([], n.timesSent > 0, "timesSent", JNumber(IntText(n.timesSent)));
    OneMore(m1, n.lastNotification > 0.0, "lastNotification", JString(f.date(n.lastNotification)));
    OneMore(m2, true, attrs, JArray(Strings(n.attributes)));
    OneMore(m3, true, "attrsFormat", JString(attrsFormat));
    OneMore(m4, true, http, JObject(HttpMembers(n.httpInfo)));
    OneMore(m5, n.metadata != [], "metadata", JArray(Strings(n.metadata)));
    OneMore(m6, n.lastFailure > 0.0, "lastFailure", JString(f.date(n.lastFailure)));
    OneMore(m7, n.lastSuccess > 0.0, "lastSuccess", JString(f.date(n.lastSuccess)));
    assert m1 == When(n.timesSent > 0, "timesSent", JNumber(IntText(n.timesSent)));
  }

  lemma WhatIsSent(n: Notification, attrsFormat: string, f: Formats)
    ensures var ms := NotificationMembers(n, attrsFormat, f);
      && Field(ms, "exceptAttrs") == (if n.blacklist then JArray(Strings(n.attributes)) else JNull)
      && Field(ms, "attrs") == (if n.blacklist then JNull else JArray(Strings(n.attributes)))
      && Field(ms, "httpCustom") == (if n.httpInfo.custom then JObject(HttpMembers(n.httpInfo)) else JNull)
      && Field(ms, "http") == (if n.httpInfo.custom then JNull else JObject(HttpMembers(n.httpInfo)))
      && Field(ms, "attrsFormat") == JString(attrsFormat)
      && Field(ms, "metadata") == if n.metadata != [] then JArray(Strings(n.metadata)) else JNull
  {
    hide Field, Strings, HttpMembers, IntText, NotificationMembers;
    DistinctNotification();
    NotificationShown(n, attrsFormat, f, "exceptAttrs");
    NotificationShown(n, attrsFormat, f, "attrs");
    NotificationShown(n, attrsFormat, f, "attrsFormat");
    NotificationShown(n, attrsFormat, f, "httpCustom");
    NotificationShown(n, attrsFormat, f, "http");
    NotificationShown(n, attrsFormat, f, "metadata");
  }

  lemma WhenSent(n: Notification, attrsFormat: string, f: Formats)
    ensures var ms := NotificationMembers(n, attrsFormat, f);
      && NumberIn(Field(ms, "timesSent")) == (if n.timesSent > 0 then n.timesSent else 0)
      && OptText(Field(ms, "lastNotification")) == DateSeen(n.lastNotification, f)
      && OptText(Field(ms, "lastFailure")) == DateSeen(n.lastFailure, f)
      && OptText(Field(ms, "lastSuccess")) == DateSeen(n.lastSuccess, f)
  {
    hide Field, Strings, HttpMembers, IntText, Decimal, NotificationMembers;
    DistinctNotification();
    NotificationShown(n, attrsFormat, f, "timesSent");
    NotificationShown(n, attrsFormat, f, "lastNotification");
    NotificationShown(n, attrsFormat, f, "lastFailure");
    NotificationShown(n, attrsFormat, f, "lastSuccess");
    IntTextIsNumber(n.timesSent);
  }

  /** A client sees the notification part as it is, as far as it is printed. */
  lemma NotificationBack(n: Notification, attrsFormat: string, f: Formats)
    ensures DecodeNotification(JObject(NotificationMembers(n, attrsFormat, f))) == SeenNotification(n, attrsFormat, f)
  {
    hide Field, Strings, HttpMembers, Texts, NotificationMembers, DecodeHttp, PrintedHttp, NumberIn, OptText, DateSeen;
    WhatIsSent(n, attrsFormat, f);
    WhenSent(n, attrsFormat, f);
    TextsBack(n.attributes);
    TextsBack(n.metadata);
    HttpBack(n.httpInfo);
  }

  // ---- the whole subscription ----

  /** What a client sees of a subscription. */
  datatype SubscriptionView = SubscriptionView(
    id: string, description: string, expires: Option<string>, status: string, subject: Subject,
    notification: NotificationView, throttling: Option<string>)

  function DecodeSubscription(v: Json): SubscriptionView {
    var ms := MembersIn(v);
    SubscriptionView(
      TextField(ms, "id"), TextField(ms, "description"), OptText(Field(ms, "expires")), TextField(ms, "status"),
      DecodeSubject(Field(ms, "subject")), DecodeNotification(Field(ms, "notification")),
      match Field(ms, "throttling") case JNumber(text) => Some(text) case _ => None)
  }

  function SeenSubscription(s: Subscription, f: Formats): SubscriptionView {
    SubscriptionView(
      s.id, s.description, if s.expires < OLD_PERMANENT then Some(f.date(s.expires)) else None, StatusOf(s), s.subject,
      SeenNotification(s.notification, s.attrsFormat, f), if s.throttling > 0.0 then Some(f.decimal(s.throttling)) else None)
  }

  lemma DistinctSubscription()
    ensures "id" !in ["description", "expires", "status", "subject", "notification", "throttling"]
    ensures "description" !in ["expires", "status", "subject", "notification", "throttling"]
    ensures "expires" !in ["status", "subject", "notification", "throttling"]
    ensures "status" !in ["subject", "notification", "throttling"]
    ensures "subject" !in ["notification", "throttling"] && "notification" != "throttling"
  {
    assert |"id"| == 2 && |"description"| == 11 && |"expires"| == 7 && |"status"| == 6 && |"subject"| == 7 && |"notification"| == 12;
    assert |"throttling"| == 10 && "expires"[0] != "subject"[0];
  }

  lemma SubscriptionShown(s: Subscription, f: Formats, k: string)
    ensures Field(SubscriptionMembers(s, f), k)
         == if k == "id" then JString(s.id)
            else if k == "description" && s.description != "" then JString(s.description)
            else if k == "expires" && s.expires < OLD_PERMANENT then JString(f.date(s.expires))
            else if k == "status" then JString(StatusOf(s))
            else if k == "subject" then JObject(SubjectMembers(s.subject))
            else if k == "notification" then JObject(NotificationMembers(s.notification, s.attrsFormat, f))
            else if k == "throttling" && s.throttling > 0.0 then JNumber(f.decimal(s.throttling))
            else JNull
  {
    NoMembers();
    hide Field, NoNulls, Opt, SubjectMembers, NotificationMembers, StatusOf;
    var notification := JObject(NotificationMembers(s.notification, s.attrsFormat, f));
    var m1 := [] + When(true, "id", JString(s.id));
    var m2 := m1 + Opt("description", s.description);
    var m3 := m2 + When(s.expires < OLD_PERMANENT, "expires", JString(f.date(s.expires)));
    var m4 := m3 + When(true, "status", JString(StatusOf(s)));
    var m5 := m4 + When(true, "subject", JObject(SubjectMembers(s.subject)));
    var m6 := m5 + When(true, "notification", notification);
    OneMore([], true, "id", JString(s.id));
    OneMoreText(m1, "description", s.description);
    OneMore(m2, s.expires < OLD_PERMANENT, "expires", JString(f.date(s.expires)));
    OneMore(m3, true, "status", JString(StatusOf(s)));
    OneMore(m4, true, "subject", JObject(SubjectMembers(s.subject)));
    OneMore(m5, true, "notification", notification);
    OneMore(m6, s.throttling > 0.0, "throttling", JNumber(f.decimal(s.throttling)));
    assert m1 == [Member("id", JString(s.id))];
  }

  /** A printed subscription, read back and decoded, is what the client is meant to see of it. */
  lemma SubscriptionBack(s: Subscription, f: Formats)
    ensures DecodeSubscription(JObject(SubscriptionMembers(s, f))) == SeenSubscription(s, f)
  {
    hide Field, SubjectMembers, NotificationMembers, StatusOf, SubscriptionMembers, DecodeSubject, DecodeNotification, SeenNotification;
    DistinctSubscription();
    SubscriptionShown(s, f, "id");
    SubscriptionShown(s, f, "description");
    SubscriptionShown(s, f, "expires");
    SubscriptionShown(s, f, "status");
    SubscriptionShown(s, f, "subject");
    SubscriptionShown(s, f, "notification");
    SubscriptionShown(s, f, "throttling");
    SubjectBack(s.subject);
    NotificationBack(s.notification, s.attrsFormat, f);
  }

  /** The status a client sees is "failed" as long as the last failure is later than the last success, and otherwise
      the one that is stored. */
  lemma StatusSeen(s: Subscription, f: Formats)
    ensures var n, seen := s.notification, DecodeSubscription(JObject(SubscriptionMembers(s, f))).status;
      && (n.lastFailure > 0.0 && n.lastSuccess < n.lastFailure ==> seen == "failed")
      && (n.lastFailure <= 0.0 || n.lastSuccess >= n.lastFailure ==> seen == s.status)
  {
    SubscriptionBack(s, f);
    hide DecodeSubscription, SubscriptionMembers;
  }

  /** When dates, the expiration and the throttling are shown at all. */
  lemma DatesSeen(s: Subscription, f: Formats)
    ensures var n, seen := s.notification, DecodeSubscription(JObject(SubscriptionMembers(s, f)));
      && seen.notification.lastNotification == (if n.lastNotification > 0.0 then Some(f.date(n.lastNotification)) else None)
      && seen.notification.lastFailure == (if n.lastFailure > 0.0 then Some(f.date(n.lastFailure)) else None)
      && seen.notification.lastSuccess == (if n.lastSuccess > 0.0 then Some(f.date(n.lastSuccess)) else None)
      && seen.notification.timesSent == (if n.timesSent > 0 then n.timesSent else 0)
      && seen.expires == (if s.expires < 9_000_000_000_000_000_000.0 then Some(f.date(s.expires)) else None)
      && seen.throttling == (if s.throttling > 0.0 then Some(f.decimal(s.throttling)) else None)
  {
    SubscriptionBack(s, f);
    hide DecodeSubscription, SubscriptionMembers;
  }

  /** Without custom headers and the like, only the url is seen. */
  lemma ReceiverSeen(s: Subscription, f: Formats)
    ensures var h, seen := s.notification.httpInfo, DecodeSubscription(JObject(SubscriptionMembers(s, f))).notification.httpInfo;
      && seen.url == h.url && seen.custom == h.custom && (h.custom ==> seen == h)
      && (!h.custom ==> seen.payload == "" && seen.verb == None && seen.qs == map[] && seen.headers == map[])
  {
    SubscriptionBack(s, f);
    hide DecodeSubscription, SubscriptionMembers;
  }

  /** Everything that is always printed is seen as it is. */
  lemma FieldsSeen(s: Subscription, f: Formats)
    ensures var n, seen := s.notification, DecodeSubscription(JObject(SubscriptionMembers(s, f)));
      && seen.id == s.id && seen.description == s.description && seen.subject == s.subject
      && seen.notification.attributes == n.attributes && seen.notification.blacklist == n.blacklist
      && seen.notification.metadata == n.metadata && seen.notification.attrsFormat == s.attrsFormat
  {
    SubscriptionBack(s, f);
    hide DecodeSubscription, SubscriptionMembers;
  }
}
