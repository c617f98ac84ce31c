/** Any number of brokers synchronise their subscription caches with one database. Every database operation is a
    step of its own, and the operations of different brokers interleave freely. Within a broker the cache
    semaphore keeps everything else out while a synchronisation is going on. */
module CacheSync {
  import opened Text
  import opened Sums
  import opened SyncData

  /** The operations that flush one saved subscription. */
  datatype Field = Count | Notification | Failure | Success
  datatype Op = Op(id: Id, field: Field)

  /** A broker between synchronisations, or in one: the reloaded cache, what was saved, and the operations to come. */
  datatype Broker =
    | Quiet(cache: map<Id, Cached>)
    | Syncing(cache: map<Id, Cached>, saved: map<Id, Cached>, todo: set<Op>)

  /** `created` are all ids ever used, and `recorded` counts the notifications recorded for each. */
  datatype State = State(db: map<Id, Doc>, brokers: seq<Broker>, created: set<Id>, recorded: map<Id, nat>)

  ghost predicate Init(s: State) {
    && s.db == map[] && s.created == {} && s.recorded == map[]
    && forall b :: 0 <= b < |s.brokers| ==> s.brokers[b] == Quiet(map[])
  }

  // ---- steps ----

  /** A broker creates a subscription with a fresh id; an initial notification is counted in the document. */
  ghost predicate Create(s: State, b: nat, id: Id, d: Doc, s': State) {
    && b < |s.brokers| && s.brokers[b].Quiet? && id !in s.created
    && s' == s.(db := s.db[id := d], created := s.created + {id}, recorded := s.recorded[id := d.count],
                brokers := s.brokers[b := Quiet(s.brokers[b].cache[id := Load(d)])])
  }

  /** A broker deletes a subscription; the other brokers keep it in their caches until they synchronise. */
  ghost predicate Delete(s: State, b: nat, id: Id, s': State) {
    && b < |s.brokers| && s.brokers[b].Quiet?
    && s' == s.(db := s.db - {id}, brokers := s.brokers[b := Quiet(s.brokers[b].cache - {id})])
  }

  ghost predicate Notify(s: State, b: nat, id: Id, now: real, s': State) {
    && b < |s.brokers| && s.brokers[b].Quiet? && id in s.brokers[b].cache && id in s.recorded
    && var c := s.brokers[b].cache[id];
    s' == s.(recorded := s.recorded[id := s.recorded[id] + 1],
             brokers := s.brokers[b := Quiet(s.brokers[b].cache[id := c.(count := c.count + 1, lastNotification := now)])])
  }

  /** The outcome of sending a notification: lastSuccess or lastFailure is set in the cache. */
  ghost predicate Outcome(s: State, b: nat, id: Id, ok: bool, now: real, s': State) {
    && b < |s.brokers| && s.brokers[b].Quiet? && id in s.brokers[b].cache
    && var c := s.brokers[b].cache[id];
    s' == s.(brokers := s.brokers[b := Quiet(s.brokers[b].cache[id := if ok then c.(lastSuccess := now) else c.(lastFailure := now)])])
  }

  function Value(c: Cached, f: Field): real {
    match f
    case Count => c.count as real
    case Notification => c.lastNotification
    case Failure => c.lastFailure
    case Success => c.lastSuccess
  }

  function Stamp(d: Doc, f: Field): Option<real> {
    match f
    case Count => None
    case Notification => d.lastNotification
    case Failure => d.lastFailure
    case Success => d.lastSuccess
  }

  function Loaded(db: map<Id, Doc>): map<Id, Cached> {
    map id | id in db :: Load(db[id])
  }

  /** What is left to do for a saved subscription once older timestamps have been cleared. */
  function ToFlush(saved: Cached, loaded: Cached): set<Field> {
    set f | f in {Count, Notification, Failure, Success} && Value(ClearOld(saved, loaded), f) > 0.0
  }

  function Todo(saved: map<Id, Cached>, loaded: map<Id, Cached>): set<Op> {
    set id, f | id in saved && id in loaded && f in ToFlush(saved[id], loaded[id]) :: Op(id, f)
  }

  /** Steps 1 to 3 of subCacheSync: save, reload, compare. */
  ghost predicate StartSync(s: State, b: nat, s': State) {
    && b < |s.brokers| && s.brokers[b].Quiet?
    && var saved, loaded := s.brokers[b].cache, Loaded(s.db);
    s' == s.(brokers := s.brokers[b := Syncing(loaded, saved, Todo(saved, loaded))])
  }

  function Flushed(d: Doc, saved: Cached, f: Field): Doc {
    match f
    case Count => d.(count := d.count + saved.count)
    case Notification => d.(lastNotification := Raise(d.lastNotification, saved.lastNotification))
    case Failure => d.(lastFailure := Raise(d.lastFailure, saved.lastFailure))
    case Success => d.(lastSuccess := Raise(d.lastSuccess, saved.lastSuccess))
  }

  /** Steps 4 and 5: one update; it finds no document when the subscription has been deleted meanwhile. */
  ghost predicate Flush(s: State, b: nat, op: Op, s': State) {
    && b < |s.brokers| && s.brokers[b].Syncing? && op in s.brokers[b].todo && op.id in s.brokers[b].saved
    && s' == s.(db := if op.id in s.db then s.db[op.id := Flushed(s.db[op.id], s.brokers[b].saved[op.id], op.field)] else s.db,
                brokers := s.brokers[b := s.brokers[b].(todo := s.brokers[b].todo - {op})])
  }

  /** The end: lastFailure and lastSuccess are kept in the cache as they were flushed. */
  function Kept(b: Broker): map<Id, Cached>
    requires b.Syncing?
  {
    map id | id in b.cache :: if id in b.saved
      then b.cache[id].(lastFailure := ClearOld(b.saved[id], b.cache[id]).lastFailure, lastSuccess := ClearOld(b.saved[id], b.cache[id]).lastSuccess)
      else b.cache[id]
  }

  ghost predicate EndSync(s: State, b: nat, s': State) {
    && b < |s.brokers| && s.brokers[b].Syncing? && s.brokers[b].todo == {}
    && s' == s.(brokers := s.brokers[b := Quiet(Kept(s.brokers[b]))])
  }

  datatype Action =
    | ACreate(id: Id, doc: Doc) | ADelete(id: Id) | ANotify(id: Id, now: real) | AOutcome(id: Id, ok: bool, now: real)
    | AStart | AFlush(op: Op) | AEnd

  ghost predicate Step(s: State, b: nat, a: Action, s': State) {
    match a
    case ACreate(id, d) => Create(s, b, id, d, s')
    case ADelete(id) => Delete(s, b, id, s')
    case ANotify(id, now) => Notify(s, b, id, now, s')
    case AOutcome(id, ok, now) => Outcome(s, b, id, ok, now, s')
    case AStart => StartSync(s, b, s')
    case AFlush(op) => Flush(s, b, op, s')
    case AEnd => EndSync(s, b, s')
  }

  ghost predicate Next(s: State, s': State) {
    exists b, a :: Step(s, b, a, s')
  }

  ghost predicate Run(states: seq<State>) {
    && states != [] && Init(states[0])
    && forall i :: 0 <= i < |states| - 1 ==> Next(states[i], states[i + 1])
  }

  // ---- invariants ----

  /** Notifications a broker has recorded for `id` and not yet added to the database. */
  function Pending(id: Id): Broker -> int {
    (b: Broker) =>
      (if id in b.cache then b.cache[id].count else 0)
      + (if b.Syncing? && Op(id, Count) in b.todo && id in b.saved then b.saved[id].count else 0)
  }

  /** Ids are never reused, and brokers only know ids that were created. */
  ghost predicate IdsOk(s: State) {
    && s.db.Keys <= s.created && s.recorded.Keys == s.created
    && forall b :: 0 <= b < |s.brokers| ==>
      && s.brokers[b].cache.Keys <= s.created
      && (s.brokers[b].Syncing? ==> s.brokers[b].saved.Keys <= s.created)
  }

  /** While a broker synchronises: its reloaded cache counts nothing yet, a saved subscription that was not in
      the database at reload never will be again, and what needs no more flushing has reached the saved value. */
  ghost predicate SyncOk(db: map<Id, Doc>, b: Broker) {
    b.Syncing? ==>
      && (forall op :: op in b.todo ==> op.id in b.saved)
      && (forall id :: id in b.cache ==> b.cache[id].count == 0)
      && (forall id :: id in b.saved && id in db ==> id in b.cache)
      && (forall id, f :: id in b.saved && id in db && f != Count && Op(id, f) !in b.todo ==>
            Reached(Stamp(db[id], f), Value(b.saved[id], f)))
  }

  ghost predicate Conserved(s: State) {
    forall id :: id in s.db && id in s.recorded ==> s.db[id].count + Sum(s.brokers, Pending(id)) == s.recorded[id]
  }

  ghost predicate AllSyncOk(s: State) {
    forall b :: 0 <= b < |s.brokers| ==> SyncOk(s.db, s.brokers[b])
  }

  ghost predicate Inv(s: State) {
    IdsOk(s) && AllSyncOk(s) && Conserved(s)
  }

  lemma InitInv(s: State)
    requires Init(s)
    ensures Inv(s)
  {
  }

  // ---- the database only moves forward ----

  /** Ids once created are never stored again after a deletion, and no timestamp of a surviving document goes back. */
  ghost predicate Forward(s: State, s': State) {
    && s.created <= s'.created && s.recorded.Keys <= s'.recorded.Keys
    && forall id :: id in s.created && id in s'.db ==>
      && id in s.db
      && s.db[id].count <= s'.db[id].count
      && forall f :: NotBefore(Stamp(s.db[id], f), Stamp(s'.db[id], f))
  }

  lemma FlushedForward(d: Doc, saved: Cached, f: Field)
    ensures forall g :: NotBefore(Stamp(d, g), Stamp(Flushed(d, saved, f), g))
    ensures f != Count ==> Reached(Stamp(Flushed(d, saved, f), f), Value(saved, f))
    ensures Flushed(d, saved, f).count == d.count + if f == Count then saved.count else 0
  {
  }

  lemma StepForward(s: State, b: nat, a: Action, s': State)
    requires Step(s, b, a, s')
    ensures Forward(s, s')
  {
    if a.AFlush? {
      var op := a.op;
      if op.id in s.db {
        FlushedForward(s.db[op.id], s.brokers[b].saved[op.id], op.field);
      }
    }
  }

  lemma ForwardTransitive(s: State, t: State, u: State)
    requires Forward(s, t) && Forward(t, u)
    ensures Forward(s, u)
  {
    forall id | id in s.created && id in u.db
      ensures id in s.db && s.db[id].count <= u.db[id].count
      ensures forall f :: NotBefore(Stamp(s.db[id], f), Stamp(u.db[id], f))
    {
      forall f ensures NotBefore(Stamp(s.db[id], f), Stamp(u.db[id], f)) {
        assert NotBefore(Stamp(s.db[id], f), Stamp(t.db[id], f));
        assert NotBefore(Stamp(t.db[id], f), Stamp(u.db[id], f));
      }
    }
  }

  // ---- every step keeps the invariant ----

  lemma IdsStep(s: State, b: nat, a: Action, s': State)
    requires Step(s, b, a, s') && IdsOk(s)
    ensures IdsOk(s')
  {
    forall c | 0 <= c < |s'.brokers|
      ensures s'.brokers[c].cache.Keys <= s'.created
      ensures s'.brokers[c].Syncing? ==> s'.brokers[c].saved.Keys <= s'.created
    {
      assert s.brokers[c].cache.Keys <= s.created;
    }
  }

  /** A broker that does not move is not disturbed by what happens to the database. */
  lemma SyncOkStable(s: State, s': State, b: Broker)
    requires SyncOk(s.db, b) && Forward(s, s')
    requires b.Syncing? ==> b.saved.Keys <= s.created
    ensures SyncOk(s'.db, b)
  {
    if b.Syncing? {
      forall id, f | id in b.saved && id in s'.db && f != Count && Op(id, f) !in b.todo
        ensures Reached(Stamp(s'.db[id], f), Value(b.saved[id], f))
      {
        assert Reached(Stamp(s.db[id], f), Value(b.saved[id], f));
        assert NotBefore(Stamp(s.db[id], f), Stamp(s'.db[id], f));
      }
    }
  }

  /** A field is flushed unless the document already has the saved timestamp or a later one. */
  lemma NotFlushedMeansReached(d: Doc, saved: Cached, f: Field)
    requires f != Count && f !in ToFlush(saved, Load(d))
    ensures Reached(Stamp(d, f), Value(saved, f))
  {
  }

  lemma StartOk(s: State, b: nat, s': State)
    requires StartSync(s, b, s')
    ensures SyncOk(s'.db, s'.brokers[b])
  {
    var saved, loaded := s.brokers[b].cache, Loaded(s.db);
    forall id, f | id in saved && id in s.db && f != Count && Op(id, f) !in Todo(saved, loaded)
      ensures Reached(Stamp(s.db[id], f), Value(saved[id], f))
    {
      NotFlushedMeansReached(s.db[id], saved[id], f);
    }
  }

  lemma FlushOk(s: State, b: nat, op: Op, s': State)
    requires Flush(s, b, op, s') && SyncOk(s.db, s.brokers[b])
    ensures SyncOk(s'.db, s'.brokers[b])
  {
    var old', new' := s.brokers[b], s'.brokers[b];
    forall id, f | id in new'.saved && id in s'.db && f != Count && Op(id, f) !in new'.todo
      ensures Reached(Stamp(s'.db[id], f), Value(new'.saved[id], f))
    {
      if id == op.id {
        FlushedForward(s.db[id], old'.saved[id], op.field);
        assert NotBefore(Stamp(s.db[id], f), Stamp(s'.db[id], f));
      }
      assert Op(id, f) == op || Reached(Stamp(s.db[id], f), Value(old'.saved[id], f));
    }
  }

  lemma SyncStep(s: State, b: nat, a: Action, s': State)
    requires Step(s, b, a, s') && IdsOk(s) && AllSyncOk(s)
    ensures AllSyncOk(s')
  {
    StepForward(s, b, a, s');
    forall c | 0 <= c < |s'.brokers| ensures SyncOk(s'.db, s'.brokers[c]) {
      assert SyncOk(s.db, s.brokers[c]);
      if c != b {
        assert s'.brokers[c] == s.brokers[c];
        SyncOkStable(s, s', s.brokers[c]);
      } else if a.AStart? {
        StartOk(s, b, s');
      } else if a.AFlush? {
        FlushOk(s, b, a.op, s');
      }
    }
  }

  /** The balance of one subscription: what a step adds to the database and to the mover's pending count is what
      it records. */
  lemma StepBalance(s: State, b: nat, a: Action, s': State, id: Id)
    requires Step(s, b, a, s') && IdsOk(s) && SyncOk(s.db, s.brokers[b])
    requires id in s.db && id in s'.db && id in s.recorded && id in s'.recorded
    ensures s'.db[id].count + Pending(id)(s'.brokers[b]) - s'.recorded[id]
         == s.db[id].count + Pending(id)(s.brokers[b]) - s.recorded[id]
    ensures s'.brokers == s.brokers[b := s'.brokers[b]]
  {
    if a.AStart? {
      var saved, loaded := s.brokers[b].cache, Loaded(s.db);
      assert id in loaded && loaded[id].count == 0;
      assert Op(id, Count) in Todo(saved, loaded) <==> id in saved && saved[id].count > 0;
    } else if a.AFlush? && a.op.id == id {
      FlushedForward(s.db[id], s.brokers[b].saved[id], a.op.field);
    }
  }

  lemma CreateBalance(s: State, b: nat, id: Id, d: Doc, s': State)
    requires Create(s, b, id, d, s') && IdsOk(s)
    ensures s'.db[id].count + Sum(s'.brokers, Pending(id)) == s'.recorded[id]
  {
    forall c | 0 <= c < |s.brokers| ensures Pending(id)(s.brokers[c]) == 0 {
      assert s.brokers[c].cache.Keys <= s.created;
    }
    SumZero(s.brokers, Pending(id));
    SumUpdate(s.brokers, b, s'.brokers[b], Pending(id));
  }

  lemma ConservedStep(s: State, b: nat, a: Action, s': State)
    requires Step(s, b, a, s') && Inv(s)
    ensures Conserved(s')
  {
    forall id | id in s'.db && id in s'.recorded
      ensures s'.db[id].count + Sum(s'.brokers, Pending(id)) == s'.recorded[id]
    {
      if a.ACreate? && a.id == id {
        CreateBalance(s, b, id, a.doc, s');
      } else {
        assert id in s.db && id in s.recorded;
        StepBalance(s, b, a, s', id);
        SumUpdate(s.brokers, b, s'.brokers[b], Pending(id));
      }
    }
  }

  lemma StepInv(s: State, b: nat, a: Action, s': State)
    requires Step(s, b, a, s') && Inv(s)
    ensures Inv(s')
  {
    IdsStep(s, b, a, s');
    SyncStep(s, b, a, s');
    ConservedStep(s, b, a, s');
  }

  // ---- whole runs ----

  lemma {:induction false} RunInv(states: seq<State>)
    requires Run(states)
    ensures forall i :: 0 <= i < |states| ==> Inv(states[i])
  {
    if |states| == 1 {
      InitInv(states[0]);
    } else {
      var n := |states| - 2;
      RunInv(states[..n + 1]);
      assert Inv(states[..n + 1][n]);
      var b, a :| Step(states[n], b, a, states[n + 1]);
      StepInv(states[n], b, a, states[n + 1]);
      forall i | 0 <= i < |states| ensures Inv(states[i]) {
        if i <= n {
          assert states[..n + 1][i] == states[i];
        }
      }
    }
  }

  lemma {:induction false} RunForward(states: seq<State>, i: nat, j: nat)
    requires Run(states) && i <= j < |states|
    ensures Forward(states[i], states[j])
    decreases j - i
  {
    if i < j {
      var b, a :| Step(states[i], b, a, states[i + 1]);
      StepForward(states[i], b, a, states[i + 1]);
      RunForward(states, i + 1, j);
      ForwardTransitive(states[i], states[i + 1], states[j]);
    }
  }

  /** No notification is lost or counted twice: in every reachable state the stored count of a surviving
      subscription and the counts the brokers still hold make up exactly the notifications recorded. */
  lemma NotificationsConserved(states: seq<State>, i: nat, id: Id)
    requires Run(states) && i < |states| && id in states[i].db
    ensures id in states[i].recorded
    ensures states[i].db[id].count + Sum(states[i].brokers, Pending(id)) == states[i].recorded[id]
  {
    RunInv(states);
  }

  /** While a subscription survives, its stored timestamps never go back and its stored count never falls. */
  lemma TimestampsNeverGoBack(states: seq<State>, i: nat, j: nat, id: Id, f: Field)
    requires Run(states) && i <= j < |states| && id in states[i].db && id in states[j].db
    ensures NotBefore(Stamp(states[i].db[id], f), Stamp(states[j].db[id], f))
    ensures states[i].db[id].count <= states[j].db[id].count
  {
    RunInv(states);
    RunForward(states, i, j);
  }

  // ---- one synchronisation among the others ----

  ghost predicate SyncingFrom(states: seq<State>, i: nat, j: nat, b: nat) {
    && Run(states) && i < j < |states| && b < |states[i].brokers|
    && StartSync(states[i], b, states[i + 1])
    && forall k :: i < k <= j ==> b < |states[k].brokers| && states[k].brokers[b].Syncing?
  }

  lemma SavedStep(s: State, c: nat, a: Action, s': State, b: nat)
    requires Step(s, c, a, s') && b < |s.brokers| && s.brokers[b].Syncing?
    ensures |s'.brokers| == |s.brokers|
    ensures s'.brokers[b].Syncing? ==> s'.brokers[b].saved == s.brokers[b].saved
  {
  }

  lemma SyncingFromFacts(states: seq<State>, i: nat, j: nat, b: nat)
    requires SyncingFrom(states, i, j, b)
    ensures Run(states) && i < j < |states| && b < |states[i].brokers|
    ensures b < |states[j].brokers| && states[j].brokers[b].Syncing?
    ensures if i + 1 < j
            then SyncingFrom(states, i, j - 1, b)
              && b < |states[j - 1].brokers| && states[j - 1].brokers[b].Syncing?
            else states[j].brokers[b].saved == states[i].brokers[b].cache
  {
  }

  lemma {:induction false} SavedStays(states: seq<State>, i: nat, j: nat, b: nat)
    requires SyncingFrom(states, i, j, b)
    ensures states[j].brokers[b].saved == states[i].brokers[b].cache
    decreases j
  {
    hide *;
    SyncingFromFacts(states, i, j, b);
    if i + 1 < j {
      SavedStays(states, i, j - 1, b);
      var c, a := RunNext(states, j - 1);
      SavedStep(states[j - 1], c, a, states[j], b);
    }
  }

  /** When a synchronisation ends, whatever the other brokers did meanwhile: every stored timestamp of a surviving
      subscription is neither before the one stored at the start nor before the one cached at the start, and
      nothing the broker had counted is still pending with it. */
  lemma SyncReachesTheLater(states: seq<State>, i: nat, j: nat, b: nat, id: Id, f: Field)
    requires SyncingFrom(states, i, j, b) && states[j].brokers[b].todo == {}
    requires id in states[i].brokers[b].cache && id in states[j].db && f != Count
    ensures id in states[i].db && NotBefore(Stamp(states[i].db[id], f), Stamp(states[j].db[id], f))
    ensures Reached(Stamp(states[j].db[id], f), Value(states[i].brokers[b].cache[id], f))
    ensures Pending(id)(states[j].brokers[b]) == 0
  {
    RunInv(states);
    RunForward(states, i, j);
    SavedStays(states, i, j, b);
    assert SyncOk(states[j].db, states[j].brokers[b]);
    assert IdsOk(states[i]);
  }

  // ---- from a notification to the database ----

  /** A step of some broker; when it is b on this subscription, it is not a deletion, and what it notes has happened no
      earlier than `now`. And b does not start to synchronise. */
  ghost predicate NothingEarlier(s: State, b: nat, id: Id, now: real, s': State) {
    exists c, a :: Step(s, c, a, s') && (c == b ==>
      match a
      case ADelete(other) => other != id
      case ANotify(other, time) => other != id || time >= now
      case AOutcome(other, _, time) => other != id || time >= now
      case AStart => false
      case _ => true)
  }

  ghost predicate CachedSince(s: State, b: nat, id: Id, f: Field, now: real) {
    && b < |s.brokers| && s.brokers[b].Quiet? && id in s.brokers[b].cache && Value(s.brokers[b].cache[id], f) >= now
  }

  lemma CachedStep(s: State, b: nat, id: Id, f: Field, now: real, s': State)
    requires NothingEarlier(s, b, id, now, s') && CachedSince(s, b, id, f, now) && IdsOk(s) && f != Count
    ensures CachedSince(s', b, id, f, now)
  {
    var c, a :| Step(s, c, a, s') && (c == b ==>
      match a
      case ADelete(other) => other != id
      case ANotify(other, time) => other != id || time >= now
      case AOutcome(other, _, time) => other != id || time >= now
      case AStart => false
      case _ => true);
    assert s.brokers[b].cache.Keys <= s.created;
  }

  lemma {:induction false} CachedUntil(states: seq<State>, m: nat, i: nat, b: nat, id: Id, f: Field, now: real)
    requires Run(states) && m <= i < |states| && CachedSince(states[m], b, id, f, now) && f != Count
    requires forall k :: m <= k < i ==> NothingEarlier(states[k], b, id, now, states[k + 1])
    ensures CachedSince(states[i], b, id, f, now)
    decreases i
  {
    hide *;
    if m < i {
      CachedUntil(states, m, i - 1, b, id, f, now);
      RunIds(states, i - 1);
      assert i - 1 + 1 == i;
      CachedStep(states[i - 1], b, id, f, now, states[i]);
    }
  }

  /** What a broker notes at `now` for a subscription has reached the database when its next synchronisation ends,
      whatever the other brokers do: a notification, a success and a failure, each in its own field. */
  lemma NotedIsStored(states: seq<State>, m: nat, i: nat, j: nat, b: nat, id: Id, now: real)
    requires m < i && SyncingFrom(states, i, j, b) && states[j].brokers[b].todo == {} && id in states[j].db && now > 0.0
    requires forall k :: m < k < i ==> NothingEarlier(states[k], b, id, now, states[k + 1])
    ensures Step(states[m], b, ANotify(id, now), states[m + 1]) ==>
      states[j].db[id].lastNotification.Some? && states[j].db[id].lastNotification.value >= now
    ensures Step(states[m], b, AOutcome(id, true, now), states[m + 1]) ==>
      states[j].db[id].lastSuccess.Some? && states[j].db[id].lastSuccess.value >= now
    ensures Step(states[m], b, AOutcome(id, false, now), states[m + 1]) ==>
      states[j].db[id].lastFailure.Some? && states[j].db[id].lastFailure.value >= now
  {
    hide *;
    SyncingFromFacts(states, i, j, b);
    if Step(states[m], b, ANotify(id, now), states[m + 1]) {
      NotedHere(states[m], b, id, now, states[m + 1]);
      NotedReaches(states, m, i, j, b, id, Notification, now);
    }
    if Step(states[m], b, AOutcome(id, true, now), states[m + 1]) {
      NotedHere(states[m], b, id, now, states[m + 1]);
      NotedReaches(states, m, i, j, b, id, Success, now);
    }
    if Step(states[m], b, AOutcome(id, false, now), states[m + 1]) {
      NotedHere(states[m], b, id, now, states[m + 1]);
      NotedReaches(states, m, i, j, b, id, Failure, now);
    }
    FieldsOf(states[j].db[id]);
  }

  lemma FieldsOf(d: Doc)
    ensures Stamp(d, Notification) == d.lastNotification && Stamp(d, Success) == d.lastSuccess && Stamp(d, Failure) == d.lastFailure
  {
  }

  lemma NotedHere(s: State, b: nat, id: Id, now: real, s': State)
    ensures Step(s, b, ANotify(id, now), s') ==> CachedSince(s', b, id, Notification, now)
    ensures Step(s, b, AOutcome(id, true, now), s') ==> CachedSince(s', b, id, Success, now)
    ensures Step(s, b, AOutcome(id, false, now), s') ==> CachedSince(s', b, id, Failure, now)
  {
  }

  lemma NotedReaches(states: seq<State>, m: nat, i: nat, j: nat, b: nat, id: Id, f: Field, now: real)
    requires m < i && SyncingFrom(states, i, j, b) && b < |states[j].brokers| && states[j].brokers[b].Syncing?
    requires states[j].brokers[b].todo == {} && id in states[j].db && now > 0.0
    requires forall k :: m < k < i ==> NothingEarlier(states[k], b, id, now, states[k + 1])
    requires CachedSince(states[m + 1], b, id, f, now) && f != Count
    ensures Stamp(states[j].db[id], f).Some? && Stamp(states[j].db[id], f).value >= now
  {
    hide Run, Stamp, Value, NothingEarlier, StartSync;
    CachedUntil(states, m + 1, i, b, id, f, now);
    SyncReachesTheLater(states, i, j, b, id, f);
  }

  /** A subscription that is stored later was stored ever since it was created. */
  lemma StoredBetween(states: seq<State>, i: nat, j: nat, id: Id)
    requires Run(states) && i <= j < |states| && id in states[i].created && id in states[j].db
    ensures id in states[i].db
  {
    RunForward(states, i, j);
  }

  lemma CreatedStays(states: seq<State>, i: nat, j: nat, id: Id)
    requires Run(states) && i <= j < |states| && id in states[i].created
    ensures id in states[j].created
  {
    RunForward(states, i, j);
  }

  lemma StoredWasCreated(states: seq<State>, i: nat, id: Id)
    requires Run(states) && i < |states| && id in states[i].db
    ensures id in states[i].created
  {
    RunInv(states);
  }

  lemma RunIds(states: seq<State>, i: nat)
    requires Run(states) && i < |states|
    ensures IdsOk(states[i])
  {
    RunInv(states);
  }

  lemma RunNext(states: seq<State>, i: nat) returns (b: nat, a: Action)
    requires Run(states) && i + 1 < |states|
    ensures Step(states[i], b, a, states[i + 1])
  {
    b, a :| Step(states[i], b, a, states[i + 1]);
  }

  ghost predicate Flushes(s: State, id: Id, f: Field, v: real, s': State) {
    exists b: nat :: Flush(s, b, Op(id, f), s') && Value(s.brokers[b].saved[id], f) == v
  }

  lemma StampStep(s: State, b: nat, a: Action, s': State, id: Id, f: Field)
    requires Step(s, b, a, s') && IdsOk(s) && id in s.db && id in s'.db
    ensures Stamp(s'.db[id], f) == Stamp(s.db[id], f)
         || (Stamp(s'.db[id], f).Some? && Flushes(s, id, f, Stamp(s'.db[id], f).value, s'))
  {
    if a.AFlush? && a.op == Op(id, f) && Stamp(s'.db[id], f) != Stamp(s.db[id], f) {
      assert Flush(s, b, Op(id, f), s') && Value(s.brokers[b].saved[id], f) == Stamp(s'.db[id], f).value;
    }
  }

  /** A stored timestamp is a maximum register: after any stretch of a run it is the value it had, or one of the
      values flushed meanwhile; and it is not before any of these. */
  lemma {:induction false} StampIsOneOfTheFlushed(states: seq<State>, i: nat, j: nat, id: Id, f: Field)
    requires Run(states) && i <= j < |states| && id in states[i].db && id in states[j].db
    ensures Stamp(states[j].db[id], f) == Stamp(states[i].db[id], f)
         || (Stamp(states[j].db[id], f).Some?
             && exists k :: i <= k < j && Flushes(states[k], id, f, Stamp(states[j].db[id], f).value, states[k + 1]))
    decreases j
  {
    hide *;
    if i < j {
      var m := j - 1;
      StoredWasCreated(states, i, id);
      CreatedStays(states, i, m, id);
      StoredBetween(states, m, j, id);
      StampIsOneOfTheFlushed(states, i, m, id, f);
      RunIds(states, m);
      var b, a := RunNext(states, m);
      StampStep(states[m], b, a, states[m + 1], id, f);
    }
  }

  lemma FlushStamp(s: State, id: Id, f: Field, v: real, s': State)
    requires Flushes(s, id, f, v, s') && f != Count && IdsOk(s)
    ensures id in s.created && s.db.Keys == s'.db.Keys
    ensures id in s.db ==> Reached(Stamp(s'.db[id], f), v)
  {
    var b: nat :| Flush(s, b, Op(id, f), s') && Value(s.brokers[b].saved[id], f) == v;
    assert s.brokers[b].saved.Keys <= s.created;
    if id in s.db {
      FlushedForward(s.db[id], s.brokers[b].saved[id], f);
    }
  }

  lemma StampCoversFlushed(states: seq<State>, k: nat, j: nat, id: Id, f: Field, v: real)
    requires Run(states) && k < j < |states| && f != Count
    requires Flushes(states[k], id, f, v, states[k + 1]) && id in states[j].db
    ensures Reached(Stamp(states[j].db[id], f), v)
  {
    hide Run, Stamp, Value, Flushes;
    RunIds(states, k);
    FlushStamp(states[k], id, f, v, states[k + 1]);
    StoredBetween(states, k, j, id);
    TimestampsNeverGoBack(states, k + 1, j, id, f);
  }
}
