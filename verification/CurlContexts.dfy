/** Reusable curl contexts in persistent mode: a global mutex guards the map of contexts, and each context
    has a mutex of its own that is held from get_curl_context to release_curl_context. */
module CurlContexts {
  import opened Sequences
  import opened Sums
  import opened Text

  type Key = string

  /** A curl handle and the mutex of its endpoint; both are numbered by the order of allocation. */
  datatype Context = Context(curl: nat, mutex: nat)

  datatype Pc =
    | Idle
    | WantMap(key: Key)                                // get: locking contexts_mutex
    | InMap(key: Key)                                  // get: holds contexts_mutex, about to look the key up
    | Looked(key: Key, found: Option<Context>)         // get: holds contexts_mutex, about to unlock it
    | WantEndpoint(key: Key, ctx: Context)             // get: locking the mutex of the endpoint
    | GotEndpoint(key: Key, ctx: Context)              // get: has the endpoint, statistics not yet updated
    | WantStatistics(key: Key, ctx: Context)           // get: locking contexts_mutex again
    | InStatistics(key: Key, ctx: Context)             // get: holds both, adding the waiting time
    | Holding(key: Key, ctx: Context)                  // between get and release
    | HoldingNothing(key: Key)                         // between get and release, with an empty context

  /** `contexts_mutex`, the map, the owner of every endpoint mutex ever created, and the allocators. */
  datatype State = State(
    mapMutex: Option<nat>, contexts: map<Key, Context>, owner: map<nat, Option<nat>>,
    nextCurl: nat, nextMutex: nat, statistics: bool, pcs: seq<Pc>)

  ghost predicate Init(s: State) {
    && s.mapMutex == None && s.contexts == map[] && s.owner == map[]
    && forall t :: 0 <= t < |s.pcs| ==> s.pcs[t] == Idle
  }

  function At(s: State, t: nat, pc: Pc): State
    requires t < |s.pcs|
  {
    s.(pcs := s.pcs[t := pc])
  }

  // ---- the actions of thread t ----

  ghost predicate Get(s: State, t: nat, key: Key, s': State) {
    t < |s.pcs| && s.pcs[t].Idle? && s' == At(s, t, WantMap(key))
  }

  ghost predicate Gets(s: State, t: nat, s': State) {
    exists key :: Get(s, t, key, s')
  }

  ghost predicate LockMap(s: State, t: nat, s': State) {
    && t < |s.pcs| && s.mapMutex == None
    && (s.pcs[t].WantMap? || s.pcs[t].WantStatistics?)
    && s' == At(s, t, if s.pcs[t].WantMap? then InMap(s.pcs[t].key) else InStatistics(s.pcs[t].key, s.pcs[t].ctx)).(mapMutex := Some(t))
  }

  /** The key is known: its context is copied. */
  ghost predicate Reuse(s: State, t: nat, s': State) {
    && t < |s.pcs| && s.pcs[t].InMap? && s.pcs[t].key in s.contexts
    && s' == At(s, t, Looked(s.pcs[t].key, Some(s.contexts[s.pcs[t].key])))
  }

  /** The key is new: a curl handle and a mutex are created and stored under it. */
  ghost predicate Create(s: State, t: nat, s': State) {
    && t < |s.pcs| && s.pcs[t].InMap? && s.pcs[t].key !in s.contexts
    && var ctx := Context(s.nextCurl, s.nextMutex);
    s' == At(s, t, Looked(s.pcs[t].key, Some(ctx))).(contexts := s.contexts[s.pcs[t].key := ctx],
                                                     owner := s.owner[s.nextMutex := None],
                                                     nextCurl := s.nextCurl + 1, nextMutex := s.nextMutex + 1)
  }

  /** The key is new and curl_easy_init returned NULL: the context stays empty. */
  ghost predicate CurlInitFails(s: State, t: nat, s': State) {
    && t < |s.pcs| && s.pcs[t].InMap? && s.pcs[t].key !in s.contexts
    && s' == At(s, t, Looked(s.pcs[t].key, None))
  }

  /** The key is new, the handle exists, but malloc or pthread_mutex_init failed: the map mutex is
      released and get returns an error with no endpoint mutex. */
  ghost predicate MutexCreationFails(s: State, t: nat, s': State) {
    && t < |s.pcs| && s.pcs[t].InMap? && s.pcs[t].key !in s.contexts
    && s' == At(s, t, HoldingNothing(s.pcs[t].key)).(mapMutex := None, nextCurl := s.nextCurl + 1)
  }

  function AfterLookup(key: Key, found: Option<Context>): Pc {
    match found
    case None => HoldingNothing(key)
    case Some(ctx) => WantEndpoint(key, ctx)
  }

  ghost predicate UnlockMap(s: State, t: nat, s': State) {
    && t < |s.pcs| && s.pcs[t].Looked?
    && s' == At(s, t, AfterLookup(s.pcs[t].key, s.pcs[t].found)).(mapMutex := None)
  }

  ghost predicate LockEndpoint(s: State, t: nat, s': State) {
    && t < |s.pcs| && s.pcs[t].WantEndpoint?
    && s.pcs[t].ctx.mutex in s.owner && s.owner[s.pcs[t].ctx.mutex] == None
    && s' == At(s, t, GotEndpoint(s.pcs[t].key, s.pcs[t].ctx)).(owner := s.owner[s.pcs[t].ctx.mutex := Some(t)])
  }

  /** With semWaitStatistics the map mutex is taken again to add the waiting time. */
  ghost predicate AfterEndpoint(s: State, t: nat, s': State) {
    && t < |s.pcs| && s.pcs[t].GotEndpoint?
    && s' == At(s, t, if s.statistics then WantStatistics(s.pcs[t].key, s.pcs[t].ctx) else Holding(s.pcs[t].key, s.pcs[t].ctx))
  }

  ghost predicate Statistics(s: State, t: nat, s': State) {
    && t < |s.pcs| && s.pcs[t].InStatistics?
    && s' == At(s, t, Holding(s.pcs[t].key, s.pcs[t].ctx)).(mapMutex := None)
  }

  ghost predicate Release(s: State, t: nat, s': State) {
    && t < |s.pcs| && s.pcs[t].Holding?
    && s' == At(s, t, Idle).(owner := s.owner[s.pcs[t].ctx.mutex := None])
  }

  ghost predicate ReleaseNothing(s: State, t: nat, s': State) {
    && t < |s.pcs| && s.pcs[t].HoldingNothing?
    && s' == At(s, t, Idle)
  }

  /** What a thread does once it has called get. */
  ghost predicate Internal(s: State, t: nat, s': State) {
    || LockMap(s, t, s') || Reuse(s, t, s') || Create(s, t, s') || CurlInitFails(s, t, s')
    || MutexCreationFails(s, t, s') || UnlockMap(s, t, s') || LockEndpoint(s, t, s') || AfterEndpoint(s, t, s')
    || Statistics(s, t, s') || Release(s, t, s') || ReleaseNothing(s, t, s')
  }

  ghost predicate Next(s: State, s': State) {
    exists t: nat :: Internal(s, t, s') || Gets(s, t, s')
  }

  ghost predicate Run(states: seq<State>) {
    && states != [] && Init(states[0])
    && forall i :: 0 <= i < |states| - 1 ==> Next(states[i], states[i + 1])
  }

  // ---- the invariant ----

  predicate HoldsMap(pc: Pc) {
    pc.InMap? || pc.Looked? || pc.InStatistics?
  }

  predicate HoldsEndpoint(pc: Pc) {
    pc.GotEndpoint? || pc.WantStatistics? || pc.InStatistics? || pc.Holding?
  }

  /** The context a thread has copied from the map, if any. */
  function Copy(pc: Pc): Option<Context> {
    match pc
    case Looked(_, found) => found
    case WantEndpoint(_, ctx) => Some(ctx)
    case GotEndpoint(_, ctx) => Some(ctx)
    case WantStatistics(_, ctx) => Some(ctx)
    case InStatistics(_, ctx) => Some(ctx)
    case Holding(_, ctx) => Some(ctx)
    case _ => None
  }

  ghost predicate MapOk(s: State) {
    && (forall t :: 0 <= t < |s.pcs| && HoldsMap(s.pcs[t]) ==> s.mapMutex == Some(t))
    && (s.mapMutex.Some? ==> s.mapMutex.value < |s.pcs| && HoldsMap(s.pcs[s.mapMutex.value]))
  }

  /** Distinct keys have distinct handles and distinct mutexes. */
  ghost predicate ContextsOk(s: State) {
    && (forall k :: k in s.contexts ==> s.contexts[k].curl < s.nextCurl && s.contexts[k].mutex < s.nextMutex)
    && (forall k :: k in s.contexts ==> s.contexts[k].mutex in s.owner)
    && (forall m :: m in s.owner ==> m < s.nextMutex)
    && (forall k, k' :: k in s.contexts && k' in s.contexts && k != k' ==>
          s.contexts[k].curl != s.contexts[k'].curl && s.contexts[k].mutex != s.contexts[k'].mutex)
  }

  /** A thread's copy is the stored context of its key. */
  ghost predicate CopiesOk(s: State) {
    forall t :: 0 <= t < |s.pcs| && Copy(s.pcs[t]).Some? ==>
      s.pcs[t].key in s.contexts && s.contexts[s.pcs[t].key] == Copy(s.pcs[t]).value
  }

  ghost predicate OwnersOk(s: State) {
    && (forall t :: 0 <= t < |s.pcs| && HoldsEndpoint(s.pcs[t]) ==>
          s.pcs[t].ctx.mutex in s.owner && s.owner[s.pcs[t].ctx.mutex] == Some(t))
    && (forall m :: m in s.owner && s.owner[m].Some? ==>
          var t := s.owner[m].value; t < |s.pcs| && HoldsEndpoint(s.pcs[t]) && s.pcs[t].ctx.mutex == m)
  }

  ghost predicate Inv(s: State) {
    MapOk(s) && ContextsOk(s) && CopiesOk(s) && OwnersOk(s)
  }

  /** What a step of `t` leaves alone: the other threads, and every stored context. */
  lemma Frame(s: State, t: nat, s': State)
    requires Internal(s, t, s')
    ensures t < |s.pcs| == |s'.pcs|
    ensures forall u :: 0 <= u < |s.pcs| && u != t ==> s'.pcs[u] == s.pcs[u]
    ensures ContextsOk(s) ==> forall k :: k in s.contexts ==> k in s'.contexts && s'.contexts[k] == s.contexts[k]
  {
    match s.pcs[t] {
      case WantMap(_) =>
      case WantStatistics(_, _) =>
      case InMap(_) =>
      case Looked(_, _) =>
      case _ =>
    }
  }

  lemma MapMover(s: State, t: nat, s': State)
    requires MapOk(s) && Internal(s, t, s')
    ensures s'.mapMutex == if HoldsMap(s'.pcs[t]) then Some(t) else if HoldsMap(s.pcs[t]) then None else s.mapMutex
    ensures HoldsMap(s'.pcs[t]) ==> HoldsMap(s.pcs[t]) || s.mapMutex == None
  {
    match s.pcs[t] {
      case WantMap(_) =>
      case WantStatistics(_, _) =>
      case InMap(_) =>
      case Looked(_, _) =>
      case _ =>
    }
  }

  lemma InternalMap(s: State, t: nat, s': State)
    requires MapOk(s) && Internal(s, t, s')
    ensures MapOk(s')
  {
    hide Internal;
    Frame(s, t, s');
    MapMover(s, t, s');
  }

  lemma InternalContexts(s: State, t: nat, s': State)
    requires ContextsOk(s) && OwnersOk(s) && CopiesOk(s) && Internal(s, t, s')
    ensures ContextsOk(s')
  {
    if !Create(s, t, s') {
      SameContexts(s, t, s');
    }
  }

  lemma SameContexts(s: State, t: nat, s': State)
    requires OwnersOk(s) && Internal(s, t, s') && !Create(s, t, s')
    ensures s'.contexts == s.contexts && s'.owner.Keys == s.owner.Keys
    ensures s'.nextCurl >= s.nextCurl && s'.nextMutex == s.nextMutex
  {
    match s.pcs[t] {
      case WantMap(_) =>
      case WantStatistics(_, _) =>
      case InMap(_) =>
      case Looked(_, _) =>
      case _ =>
    }
  }

  lemma CopyMover(s: State, t: nat, s': State)
    requires t < |s.pcs| == |s'.pcs| && CopiesOk(s) && Copy(s'.pcs[t]).Some?
    requires Internal(s, t, s')
    ensures s'.pcs[t].key in s'.contexts && s'.contexts[s'.pcs[t].key] == Copy(s'.pcs[t]).value
  {
    match s.pcs[t] {
      case WantMap(_) =>
      case InMap(_) =>
      case Looked(_, _) =>
      case WantStatistics(_, _) =>
      case _ =>
    }
  }

  lemma InternalCopies(s: State, t: nat, s': State)
    requires ContextsOk(s) && CopiesOk(s) && Internal(s, t, s')
    ensures CopiesOk(s')
  {
    hide Internal, ContextsOk;
    Frame(s, t, s');
    forall u | 0 <= u < |s'.pcs| && Copy(s'.pcs[u]).Some?
      ensures s'.pcs[u].key in s'.contexts && s'.contexts[s'.pcs[u].key] == Copy(s'.pcs[u]).value
    {
      if u == t {
        CopyMover(s, t, s');
      }
    }
  }

  lemma OwnerQuiet(s: State, t: nat, s': State)
    requires Internal(s, t, s') && !Create(s, t, s') && !LockEndpoint(s, t, s') && !Release(s, t, s')
    ensures t < |s.pcs| == |s'.pcs| && s'.owner == s.owner
    ensures HoldsEndpoint(s'.pcs[t]) == HoldsEndpoint(s.pcs[t])
    ensures HoldsEndpoint(s.pcs[t]) ==> s'.pcs[t].ctx == s.pcs[t].ctx
  {
    match s.pcs[t] {
      case WantMap(_) =>
      case WantStatistics(_, _) =>
      case InMap(_) =>
      case Looked(_, _) =>
      case _ =>
    }
  }

  /** How a step of `t` changes the owners of endpoint mutexes. */
  lemma OwnerMover(s: State, t: nat, s': State)
    requires ContextsOk(s) && OwnersOk(s) && Internal(s, t, s')
    ensures HoldsEndpoint(s'.pcs[t]) && !HoldsEndpoint(s.pcs[t]) ==>
      s'.pcs[t].ctx.mutex in s.owner && s.owner[s'.pcs[t].ctx.mutex] == None && s'.owner == s.owner[s'.pcs[t].ctx.mutex := Some(t)]
    ensures HoldsEndpoint(s.pcs[t]) && !HoldsEndpoint(s'.pcs[t]) ==> s'.owner == s.owner[s.pcs[t].ctx.mutex := None]
    ensures HoldsEndpoint(s.pcs[t]) && HoldsEndpoint(s'.pcs[t]) ==> s'.owner == s.owner && s'.pcs[t].ctx == s.pcs[t].ctx
    ensures !HoldsEndpoint(s.pcs[t]) && !HoldsEndpoint(s'.pcs[t]) ==>
      s'.owner == s.owner || (s.nextMutex !in s.owner && s'.owner == s.owner[s.nextMutex := None])
  {
    if Create(s, t, s') {
    } else if LockEndpoint(s, t, s') {
    } else if Release(s, t, s') {
    } else {
      OwnerQuiet(s, t, s');
    }
  }

  lemma InternalOwners(s: State, t: nat, s': State)
    requires ContextsOk(s) && OwnersOk(s) && Internal(s, t, s')
    ensures OwnersOk(s')
  {
    hide Internal, ContextsOk;
    Frame(s, t, s');
    OwnerMover(s, t, s');
    forall u | 0 <= u < |s'.pcs| && HoldsEndpoint(s'.pcs[u])
      ensures s'.pcs[u].ctx.mutex in s'.owner && s'.owner[s'.pcs[u].ctx.mutex] == Some(u)
    {
      assert u != t ==> s'.pcs[u] == s.pcs[u];
    }
    forall m | m in s'.owner && s'.owner[m].Some?
      ensures var u := s'.owner[m].value; u < |s'.pcs| && HoldsEndpoint(s'.pcs[u]) && s'.pcs[u].ctx.mutex == m
    {
      if m in s.owner && s.owner[m] == s'.owner[m] {
        var u := s.owner[m].value;
        assert u != t ==> s'.pcs[u] == s.pcs[u];
      }
    }
  }

  lemma Mover(s: State, s': State) returns (t: nat)
    requires Next(s, s')
    ensures Internal(s, t, s') || Gets(s, t, s')
  {
    t :| Internal(s, t, s') || Gets(s, t, s');
  }

  lemma GetsInv(s: State, t: nat, s': State)
    requires Inv(s) && Gets(s, t, s')
    ensures Inv(s') && s'.contexts == s.contexts
  {
    var key :| Get(s, t, key, s');
    assert forall u :: 0 <= u < |s.pcs| && u != t ==> s'.pcs[u] == s.pcs[u];
  }

  lemma StepInv(s: State, s': State)
    requires Inv(s) && Next(s, s')
    ensures Inv(s')
  {
    hide *;
    var t := Mover(s, s');
    if Gets(s, t, s') {
      GetsInv(s, t, s');
    } else {
      InvParts(s);
      InternalMap(s, t, s');
      InternalContexts(s, t, s');
      InternalCopies(s, t, s');
      InternalOwners(s, t, s');
      InvWhole(s');
    }
  }

  lemma InvParts(s: State)
    requires Inv(s)
    ensures MapOk(s) && ContextsOk(s) && CopiesOk(s) && OwnersOk(s)
  {
  }

  lemma InvWhole(s: State)
    requires MapOk(s) && ContextsOk(s) && CopiesOk(s) && OwnersOk(s)
    ensures Inv(s)
  {
  }

  lemma {:induction false} RunInv(states: seq<State>, i: nat)
    requires Run(states) && i < |states|
    ensures Inv(states[i])
  {
    if i > 0 {
      RunInv(states, i - 1);
      assert Next(states[i - 1], states[i - 1 + 1]);
      StepInv(states[i - 1], states[i]);
    }
  }

  // ---- what it means over whole runs ----

  /** In every reachable state at most one thread is between get and release for a given key, no two
      threads use the same curl handle, and distinct keys share neither handle nor mutex. */
  lemma Exclusive(states: seq<State>, i: nat, t: nat, u: nat)
    requires Run(states) && i < |states| && t < |states[i].pcs| && u < |states[i].pcs| && t != u
    requires states[i].pcs[t].Holding? && states[i].pcs[u].Holding?
    ensures states[i].pcs[t].key != states[i].pcs[u].key
    ensures states[i].pcs[t].ctx.curl != states[i].pcs[u].ctx.curl
    ensures states[i].pcs[t].ctx.mutex != states[i].pcs[u].ctx.mutex
  {
    RunInv(states, i);
    var s := states[i];
    assert Copy(s.pcs[t]).Some? && Copy(s.pcs[u]).Some?;
    assert HoldsEndpoint(s.pcs[t]) && HoldsEndpoint(s.pcs[u]);
  }

  /** Once created, the context stored under a key never changes. */
  lemma {:induction false} StoredForEver(states: seq<State>, i: nat, j: nat, key: Key)
    requires Run(states) && i <= j < |states| && key in states[i].contexts
    ensures key in states[j].contexts && states[j].contexts[key] == states[i].contexts[key]
    decreases j
  {
    hide Inv, ContextsOk, Internal, Gets;
    if i < j {
      StoredForEver(states, i, j - 1, key);
      RunInv(states, j - 1);
      assert Next(states[j - 1], states[j - 1 + 1]);
      var t := Mover(states[j - 1], states[j]);
      if Gets(states[j - 1], t, states[j]) {
        GetsInv(states[j - 1], t, states[j]);
      } else {
        InvParts(states[j - 1]);
        Frame(states[j - 1], t, states[j]);
      }
    }
  }

  // ---- what a caller gets ----

  /** Thread t has a copy of this context of that key. */
  ghost predicate Has(s: State, t: nat, key: Key, ctx: Context) {
    t < |s.pcs| && Copy(s.pcs[t]) == Some(ctx) && s.pcs[t].key == key
  }

  /** A thread that has a context keeps it, and can only end its call by releasing it. */
  lemma HasStep(s: State, t: nat, key: Key, ctx: Context, u: nat, s': State)
    requires Has(s, t, key, ctx) && (Internal(s, u, s') || Gets(s, u, s'))
    ensures t < |s.pcs| && t < |s'.pcs|
    ensures if s'.pcs[t].Idle? then s.pcs[t] == Holding(key, ctx) else Has(s', t, key, ctx)
  {
    if Gets(s, u, s') {
      var k :| Get(s, u, k, s');
    } else if u == t {
      match s.pcs[t] {
        case Looked(_, _) =>
        case WantStatistics(_, _) =>
        case _ =>
      }
    } else {
      hide ContextsOk;
      Frame(s, u, s');
    }
  }

  lemma {:induction false} HasUntil(states: seq<State>, k: nat, j: nat, t: nat, key: Key, ctx: Context)
    requires Run(states) && k <= j < |states| && Has(states[k], t, key, ctx)
    requires forall h :: k < h <= j ==> t < |states[h].pcs| ==> !states[h].pcs[t].Idle?
    ensures Has(states[j], t, key, ctx)
    decreases j
  {
    hide Has, Internal, Gets;
    if k < j {
      HasUntil(states, k, j - 1, t, key, ctx);
      assert Next(states[j - 1], states[j - 1 + 1]);
      var u := Mover(states[j - 1], states[j]);
      HasStep(states[j - 1], t, key, ctx, u, states[j]);
    }
  }

  /** A thread that has found or created a context ends its call by releasing it: just before, it is between get and
      release with the context that is stored under its key, and it owns the mutex of the endpoint. */
  lemma CallEndsHolding(states: seq<State>, k: nat, j: nat, t: nat, key: Key) returns (ctx: Context)
    requires Run(states) && k + 1 < j < |states| && t < |states[k].pcs| && states[k].pcs[t] == InMap(key)
    requires Create(states[k], t, states[k + 1]) || Reuse(states[k], t, states[k + 1])
    requires forall h :: k < h < j ==> t < |states[h].pcs| ==> !states[h].pcs[t].Idle?
    requires t < |states[j].pcs| && states[j].pcs[t].Idle?
    ensures var s := states[j - 1];
      && t < |s.pcs| && s.pcs[t] == Holding(key, ctx) && key in s.contexts && s.contexts[key] == ctx
      && ctx.mutex in s.owner && s.owner[ctx.mutex] == Some(t)
    ensures key in states[k].contexts ==> ctx == states[k].contexts[key]
    ensures key !in states[k].contexts ==> ctx.mutex !in states[k].owner && key in states[k + 1].contexts
    ensures forall other :: other in states[k].contexts && other != key ==> states[k].contexts[other].curl != ctx.curl
  {
    hide *;
    RunInv(states, k);
    RunInv(states, j - 1);
    InvParts(states[k]);
    ctx := LookupGives(states[k], t, key, states[k + 1]);
    HasUntil(states, k + 1, j - 1, t, key, ctx);
    RunNext(states, j - 1);
    var u := Mover(states[j - 1], states[j]);
    HasStep(states[j - 1], t, key, ctx, u, states[j]);
    HoldingFacts(states[j - 1], t);
  }

  lemma RunNext(states: seq<State>, i: nat)
    requires Run(states) && i + 1 < |states|
    ensures Next(states[i], states[i + 1])
  {
    hide Next, Init;
  }

  lemma LookupGives(s: State, t: nat, key: Key, s': State) returns (ctx: Context)
    requires ContextsOk(s) && t < |s.pcs| && s.pcs[t] == InMap(key) && (Create(s, t, s') || Reuse(s, t, s'))
    ensures Has(s', t, key, ctx) && key in s'.contexts
    ensures key in s.contexts ==> ctx == s.contexts[key]
    ensures key !in s.contexts ==> ctx.mutex !in s.owner
    ensures forall other :: other in s.contexts && other != key ==> s.contexts[other].curl != ctx.curl
  {
    ctx := if key in s.contexts then s.contexts[key] else Context(s.nextCurl, s.nextMutex);
  }

  lemma HoldingFacts(s: State, t: nat)
    requires Inv(s) && t < |s.pcs| && s.pcs[t].Holding?
    ensures s.pcs[t].key in s.contexts && s.contexts[s.pcs[t].key] == s.pcs[t].ctx
    ensures s.pcs[t].ctx.mutex in s.owner && s.owner[s.pcs[t].ctx.mutex] == Some(t)
  {
    hide MapOk, ContextsOk;
    assert Copy(s.pcs[t]) == Some(s.pcs[t].ctx) && HoldsEndpoint(s.pcs[t]);
  }

  /** A call can always end with a context: with both mutexes free, thread t alone gets the stored one, or a new one that
      is stored under its key from then on. */
  lemma GetAlone(s: State, t: nat, key: Key) returns (states: seq<State>)
    requires ContextsOk(s) && t < |s.pcs| && s.pcs[t].Idle? && s.mapMutex == None
    requires key in s.contexts ==> s.owner[s.contexts[key].mutex] == None
    ensures |states| > 1 && states[0] == s && Gets(s, t, states[1])
    ensures forall i :: 1 <= i < |states| - 1 ==> Internal(states[i], t, states[i + 1])
    ensures var z := states[|states| - 1];
      && key in z.contexts && z.mapMutex == None && z.pcs == s.pcs[t := Holding(key, z.contexts[key])]
      && z.contexts[key].mutex in z.owner && z.owner[z.contexts[key].mutex] == Some(t)
      && z.contexts == (if key in s.contexts then s.contexts else s.contexts[key := z.contexts[key]])
      && (key !in s.contexts ==> z.contexts[key].mutex !in s.owner)
  {
    var s1 := At(s, t, WantMap(key));
    assert Get(s, t, key, s1);
    var s2 := At(s1, t, InMap(key)).(mapMutex := Some(t));
    assert LockMap(s1, t, s2);
    var ctx := if key in s.contexts then s.contexts[key] else Context(s.nextCurl, s.nextMutex);
    var s3 := Found(s2, t, key, ctx);
    var s4 := At(s3, t, WantEndpoint(key, ctx)).(mapMutex := None);
    assert UnlockMap(s3, t, s4);
    var s5 := At(s4, t, GotEndpoint(key, ctx)).(owner := s4.owner[ctx.mutex := Some(t)]);
    assert LockEndpoint(s4, t, s5);
    hide Create, Reuse, LockMap, UnlockMap, LockEndpoint, ContextsOk;
    var rest := Hold(s5, t, key, ctx);
    states := [s, s1, s2, s3, s4] + rest;
    assert rest[|rest| - 1].pcs == s.pcs[t := Holding(key, ctx)];
  }

  lemma Found(s: State, t: nat, key: Key, ctx: Context) returns (s': State)
    requires t < |s.pcs| && s.pcs[t] == InMap(key)
    requires ctx == if key in s.contexts then s.contexts[key] else Context(s.nextCurl, s.nextMutex)
    ensures Internal(s, t, s') && s'.pcs == s.pcs[t := Looked(key, Some(ctx))] && s'.mapMutex == s.mapMutex
    ensures s'.contexts == s.contexts[key := ctx] && s'.owner == if key in s.contexts then s.owner else s.owner[ctx.mutex := None]
  {
    s' := At(s, t, Looked(key, Some(ctx)));
    if key in s.contexts {
      assert Reuse(s, t, s');
    } else {
      s' := s'.(contexts := s.contexts[key := ctx], owner := s.owner[s.nextMutex := None],
                nextCurl := s.nextCurl + 1, nextMutex := s.nextMutex + 1);
      assert Create(s, t, s');
    }
  }

  /** The last steps, with and without statistics. */
  lemma Hold(s: State, t: nat, key: Key, ctx: Context) returns (states: seq<State>)
    requires t < |s.pcs| && s.pcs[t] == GotEndpoint(key, ctx) && s.mapMutex == None
    ensures |states| > 1 && states[0] == s && forall i :: 0 <= i < |states| - 1 ==> Internal(states[i], t, states[i + 1])
    ensures states[|states| - 1] == At(s, t, Holding(key, ctx))
  {
    if s.statistics {
      var s1 := At(s, t, WantStatistics(key, ctx));
      var s2 := At(s1, t, InStatistics(key, ctx)).(mapMutex := Some(t));
      var s3 := At(s2, t, Holding(key, ctx)).(mapMutex := None);
      assert AfterEndpoint(s, t, s1) && LockMap(s1, t, s2) && Statistics(s2, t, s3);
      states := [s, s1, s2, s3];
    } else {
      var s1 := At(s, t, Holding(key, ctx));
      assert AfterEndpoint(s, t, s1);
      states := [s, s1];
    }
  }

  // ---- no deadlock ----

  /** A thread that holds the map mutex can always go on. */
  lemma MapHolderSteps(s: State, t: nat) returns (s': State)
    requires t < |s.pcs| && HoldsMap(s.pcs[t])
    ensures Internal(s, t, s')
  {
    match s.pcs[t] {
      case InMap(key) =>
        if key in s.contexts {
          s' := At(s, t, Looked(key, Some(s.contexts[key])));
          assert Reuse(s, t, s');
        } else {
          s' := At(s, t, Looked(key, None));
          assert CurlInitFails(s, t, s');
        }
      case Looked(key, found) =>
        s' := At(s, t, AfterLookup(key, found)).(mapMutex := None);
        assert UnlockMap(s, t, s');
      case InStatistics(key, ctx) =>
        s' := At(s, t, Holding(key, ctx)).(mapMutex := None);
        assert Statistics(s, t, s');
    }
  }

  /** With the map mutex free, every busy thread can go on unless it waits for an endpoint that is taken. */
  lemma OtherSteps(s: State, t: nat) returns (s': State)
    requires t < |s.pcs| && !s.pcs[t].Idle? && !HoldsMap(s.pcs[t]) && s.mapMutex == None
    requires s.pcs[t].WantEndpoint? ==> s.pcs[t].ctx.mutex in s.owner && s.owner[s.pcs[t].ctx.mutex] == None
    ensures Internal(s, t, s')
  {
    match s.pcs[t] {
      case WantMap(key) =>
        s' := At(s, t, InMap(key)).(mapMutex := Some(t));
        assert LockMap(s, t, s');
      case WantStatistics(key, ctx) =>
        s' := At(s, t, InStatistics(key, ctx)).(mapMutex := Some(t));
        assert LockMap(s, t, s');
      case WantEndpoint(key, ctx) =>
        s' := At(s, t, GotEndpoint(key, ctx)).(owner := s.owner[ctx.mutex := Some(t)]);
        assert LockEndpoint(s, t, s');
      case GotEndpoint(key, ctx) =>
        s' := At(s, t, if s.statistics then WantStatistics(key, ctx) else Holding(key, ctx));
        assert AfterEndpoint(s, t, s');
      case Holding(key, ctx) =>
        s' := At(s, t, Idle).(owner := s.owner[ctx.mutex := None]);
        assert Release(s, t, s');
      case HoldingNothing(key) =>
        s' := At(s, t, Idle);
        assert ReleaseNothing(s, t, s');
    }
  }

  /** Whenever some thread is busy, some busy thread can take its next step. */
  lemma Progress(s: State, busy: nat) returns (t: nat, s': State)
    requires Inv(s) && busy < |s.pcs| && !s.pcs[busy].Idle?
    ensures Internal(s, t, s')
  {
    hide Internal;
    if s.mapMutex.Some? {
      t := s.mapMutex.value;
      s' := MapHolderSteps(s, t);
    } else {
      t := busy;
      if s.pcs[busy].WantEndpoint? {
        assert Copy(s.pcs[busy]).Some?;
        var m := s.pcs[busy].ctx.mutex;
        if s.owner[m].Some? {
          t := s.owner[m].value;
        }
      }
      assert !HoldsMap(s.pcs[t]);
      s' := OtherSteps(s, t);
    }
  }

  function Work(): Pc -> int {
    (pc: Pc) =>
      match pc
      case Idle => 0
      case HoldingNothing(_) => 1
      case Holding(_, _) => 1
      case InStatistics(_, _) => 2
      case WantStatistics(_, _) => 3
      case GotEndpoint(_, _) => 4
      case WantEndpoint(_, _) => 5
      case Looked(_, _) => 6
      case InMap(_) => 7
      case WantMap(_) => 8
  }

  lemma WorkMover(s: State, t: nat, s': State)
    requires Internal(s, t, s')
    ensures t < |s.pcs| && |s'.pcs| == |s.pcs| && s'.pcs == s.pcs[t := s'.pcs[t]]
    ensures Work()(s'.pcs[t]) < Work()(s.pcs[t])
  {
    match s.pcs[t] {
      case WantMap(_) =>
      case WantStatistics(_, _) =>
      case InMap(_) =>
      case Looked(_, _) =>
      case _ =>
    }
  }

  /** Every step brings its thread nearer to the end of its get/release cycle. */
  lemma WorkDecreases(s: State, t: nat, s': State)
    requires Internal(s, t, s')
    ensures 0 <= Sum(s'.pcs, Work()) < Sum(s.pcs, Work())
  {
    hide Internal;
    WorkMover(s, t, s');
    SumUpdate(s.pcs, t, s'.pcs[t], Work());
    SumNonNegative(s'.pcs, Work());
  }

  ghost predicate InternalNext(s: State, s': State) {
    exists t: nat :: Internal(s, t, s')
  }

  /** A schedule without new calls. */
  ghost predicate Drain(states: seq<State>) {
    states != [] && forall i :: 0 <= i < |states| - 1 ==> InternalNext(states[i], states[i + 1])
  }

  lemma InternalNextWork(s: State, s': State)
    requires InternalNext(s, s')
    ensures Sum(s'.pcs, Work()) < Sum(s.pcs, Work()) && Next(s, s')
  {
    hide Internal;
    var t: nat :| Internal(s, t, s');
    WorkDecreases(s, t, s');
  }

  /** Every schedule without new calls is at most as long as the work there is. */
  lemma DrainEnds(states: seq<State>)
    requires Drain(states)
    ensures |states| - 1 <= Sum(states[0].pcs, Work())
  {
    hide Work, Sum, InternalNext;
    var ws := seq(|states|, i requires 0 <= i < |states| => Sum(states[i].pcs, Work()));
    forall i | 0 <= i < |ws| - 1 ensures ws[i + 1] < ws[i] {
      InternalNextWork(states[i], states[i + 1]);
    }
    WorkNonNegative(states[|states| - 1]);
    Descent(ws);
  }

  lemma WorkNonNegative(s: State)
    ensures Sum(s.pcs, Work()) >= 0
  {
    SumNonNegative(s.pcs, Work());
  }

  lemma BusyHasStep(s: State, t: nat)
    requires Inv(s) && t < |s.pcs| && !s.pcs[t].Idle?
    ensures exists s' :: InternalNext(s, s')
  {
    hide Internal;
    var u, s' := Progress(s, t);
    assert InternalNext(s, s');
  }

  /** When it cannot be prolonged, every context has been released. */
  lemma StuckMeansIdle(s: State, t: nat)
    requires Inv(s) && (forall s' :: !InternalNext(s, s')) && t < |s.pcs|
    ensures s.pcs[t].Idle?
  {
    if !s.pcs[t].Idle? {
      BusyHasStep(s, t);
    }
  }
}
