/** SyncQOverflow: a bounded queue behind a mutex and a condition variable, used by any number of
    producers and consumers. One step is one action of one thread; steps of different threads interleave freely. */
module SyncQueue {
  import opened Sequences
  import opened Sums
  import opened Text

  /** Where a thread is. A thread between two calls is Idle. */
  datatype Pc<T> =
    | Idle
    | PushStart(item: T)      // in try_push, waiting for the mutex
    | PushLocked(item: T)     // in try_push, holding the mutex
    | PushNotify              // pushed and unlocked, notify_one still to come
    | PopStart                // in pop, waiting for the mutex for the first time
    | PopLocked(woken: bool)  // in pop, holding the mutex, about to test queue.empty()
    | Asleep                  // in addedElement.wait, mutex released
    | Woken                   // woken up, waiting to get the mutex back
    | SizeStart               // in size, waiting for the mutex
    | SizeLocked              // in size, holding the mutex

  /** What a call returns: try_push whether the element was accepted, pop the element and size the number. */
  datatype Answer<T> = Accepted(item: T) | Refused(item: T) | Popped(item: T) | Sized(n: nat)

  /** `pushed` and `popped` are the histories of what went into the queue and came out, `calls` counts the calls made
      and `answers` is the history of what they returned. */
  datatype State<T> = State(maxSize: nat, queue: seq<T>, mutex: Option<nat>, pcs: seq<Pc<T>>, pushed: seq<T>, popped: seq<T>,
                            calls: nat, answers: seq<Answer<T>>)

  predicate HoldsMutex(pc: Pc) {
    pc.PushLocked? || pc.PopLocked? || pc.SizeLocked?
  }

  ghost predicate Init<T>(s: State<T>) {
    && s.queue == [] && s.mutex == None && s.pushed == [] && s.popped == [] && s.calls == 0 && s.answers == []
    && forall t :: 0 <= t < |s.pcs| ==> s.pcs[t] == Idle
  }

  // ---- the actions ----

  ghost predicate Call<T>(s: State<T>, t: nat, s': State<T>) {
    && t < |s.pcs| && s.pcs[t].Idle? && |s'.pcs| == |s.pcs|
    && (s'.pcs[t].PushStart? || s'.pcs[t].PopStart? || s'.pcs[t].SizeStart?)
    && s' == s.(pcs := s.pcs[t := s'.pcs[t]], calls := s.calls + 1)
  }

  function LockedPc<T>(pc: Pc<T>): Option<Pc<T>> {
    match pc
    case PushStart(item) => Some(PushLocked(item))
    case PopStart => Some(PopLocked(false))
    case Woken => Some(PopLocked(true))
    case SizeStart => Some(SizeLocked)
    case _ => None
  }

  ghost predicate Lock<T>(s: State<T>, t: nat, s': State<T>) {
    && t < |s.pcs| && s.mutex == None && LockedPc(s.pcs[t]).Some?
    && s' == s.(mutex := Some(t), pcs := s.pcs[t := LockedPc(s.pcs[t]).value])
  }

  /** The body of try_push: push and unlock when there is room, otherwise unlock and return false. */
  ghost predicate TryPush<T>(s: State<T>, t: nat, s': State<T>) {
    && t < |s.pcs| && s.pcs[t].PushLocked?
    && s' == if |s.queue| < s.maxSize
             then s.(queue := s.queue + [s.pcs[t].item], pushed := s.pushed + [s.pcs[t].item],
                     answers := s.answers + [Accepted(s.pcs[t].item)], mutex := None, pcs := s.pcs[t := PushNotify])
             else s.(answers := s.answers + [Refused(s.pcs[t].item)], mutex := None, pcs := s.pcs[t := Idle])
  }

  /** notify_one wakes one sleeper of the condition variable's choice, or nobody when nobody sleeps. */
  ghost predicate Notify<T>(s: State<T>, t: nat, u: nat, s': State<T>) {
    && t < |s.pcs| && s.pcs[t].PushNotify?
    && if exists v :: 0 <= v < |s.pcs| && s.pcs[v].Asleep?
       then u < |s.pcs| && s.pcs[u].Asleep? && s' == s.(pcs := s.pcs[t := Idle][u := Woken])
       else s' == s.(pcs := s.pcs[t := Idle])
  }

  /** The body of pop: return the front element and unlock, or release the mutex and sleep. */
  ghost predicate Pop<T>(s: State<T>, t: nat, s': State<T>) {
    && t < |s.pcs| && s.pcs[t].PopLocked?
    && s' == if s.queue == []
             then s.(mutex := None, pcs := s.pcs[t := Asleep])
             else s.(queue := s.queue[1..], popped := s.popped + [s.queue[0]], answers := s.answers + [Popped(s.queue[0])],
                     mutex := None, pcs := s.pcs[t := Idle])
  }

  ghost predicate Size<T>(s: State<T>, t: nat, s': State<T>) {
    && t < |s.pcs| && s.pcs[t].SizeLocked?
    && s' == s.(answers := s.answers + [Sized(|s.queue|)], mutex := None, pcs := s.pcs[t := Idle])
  }

  /** A condition variable may wake a sleeper without any notification. */
  ghost predicate SpuriousWakeup<T>(s: State<T>, t: nat, s': State<T>) {
    && t < |s.pcs| && s.pcs[t].Asleep?
    && s' == s.(pcs := s.pcs[t := Woken])
  }

  /** What a thread that is inside a call does by itself. */
  ghost predicate Internal<T>(s: State<T>, t: nat, u: nat, s': State<T>) {
    Lock(s, t, s') || TryPush(s, t, s') || Notify(s, t, u, s') || Pop(s, t, s') || Size(s, t, s')
  }

  ghost predicate Step<T>(s: State<T>, t: nat, u: nat, s': State<T>) {
    Internal(s, t, u, s') || Call(s, t, s') || SpuriousWakeup(s, t, s')
  }

  ghost predicate Next<T>(s: State<T>, s': State<T>) {
    exists t, u :: Step(s, t, u, s')
  }

  ghost predicate InternalNext<T>(s: State<T>, s': State<T>) {
    exists t, u :: Internal(s, t, u, s')
  }

  ghost predicate Run<T>(states: seq<State<T>>) {
    && states != [] && Init(states[0])
    && forall i :: 0 <= i < |states| - 1 ==> Next(states[i], states[i + 1])
  }

  // ---- the invariant ----

  function AsleepWeight<T>(): Pc<T> -> int {
    (pc: Pc<T>) => if pc.Asleep? then 1 else 0
  }

  /** Notifications in flight and consumers that were woken and have not returned. */
  function HandlingWeight<T>(): Pc<T> -> int {
    (pc: Pc<T>) => if pc.PushNotify? || pc.Woken? || (pc.PopLocked? && pc.woken) then 1 else 0
  }

  ghost predicate MutexOk<T>(s: State<T>) {
    && (forall t :: 0 <= t < |s.pcs| && HoldsMutex(s.pcs[t]) ==> s.mutex == Some(t))
    && (s.mutex.Some? ==> s.mutex.value < |s.pcs| && HoldsMutex(s.pcs[s.mutex.value]))
  }

  ghost predicate NoLostWakeup<T>(s: State<T>) {
    Sum(s.pcs, AsleepWeight()) > 0 ==> |s.queue| <= Sum(s.pcs, HandlingWeight())
  }

  /** A call that has not returned; try_push returns by putting its element into the queue. */
  function OpenWeight<T>(): Pc<T> -> int {
    (pc: Pc<T>) => if pc.Idle? || pc.PushNotify? then 0 else 1
  }

  function AcceptedIn<T>(answers: seq<Answer<T>>): seq<T> {
    if answers == [] then []
    else AcceptedIn(answers[..|answers| - 1]) + (match answers[|answers| - 1] case Accepted(item) => [item] case _ => [])
  }

  function PoppedIn<T>(answers: seq<Answer<T>>): seq<T> {
    if answers == [] then []
    else PoppedIn(answers[..|answers| - 1]) + (match answers[|answers| - 1] case Popped(item) => [item] case _ => [])
  }

  /** Every call is open or has been answered, and the answers tell the truth about what went in and came out. */
  ghost predicate AnswersOk<T>(s: State<T>) {
    && s.calls == |s.answers| + Sum(s.pcs, OpenWeight())
    && AcceptedIn(s.answers) == s.pushed && PoppedIn(s.answers) == s.popped
  }

  ghost predicate QueueOk<T>(s: State<T>) {
    && s.pushed == s.popped + s.queue
    && |s.queue| <= s.maxSize
    && MutexOk(s)
    && NoLostWakeup(s)
  }

  ghost predicate Inv<T>(s: State<T>) {
    QueueOk(s) && AnswersOk(s)
  }

  lemma InitInv<T>(s: State<T>)
    requires Init(s)
    ensures Inv(s)
  {
    SumZero(s.pcs, AsleepWeight());
    SumZero(s.pcs, HandlingWeight());
    SumZero(s.pcs, OpenWeight());
  }

  lemma AnswersSnoc<T>(answers: seq<Answer<T>>, a: Answer<T>)
    ensures AcceptedIn(answers + [a]) == AcceptedIn(answers) + (match a case Accepted(item) => [item] case _ => [])
    ensures PoppedIn(answers + [a]) == PoppedIn(answers) + (match a case Popped(item) => [item] case _ => [])
  {
    assert (answers + [a])[..|answers|] == answers;
  }

  lemma SomeoneAsleep<T>(s: State<T>, v: nat)
    requires v < |s.pcs| && s.pcs[v].Asleep?
    ensures Sum(s.pcs, AsleepWeight()) > 0
  {
    SumAtLeast(s.pcs, v, AsleepWeight());
  }

  lemma NobodyAsleep<T>(s: State<T>)
    requires !exists v :: 0 <= v < |s.pcs| && s.pcs[v].Asleep?
    ensures Sum(s.pcs, AsleepWeight()) == 0
  {
    SumZero(s.pcs, AsleepWeight());
  }

  lemma Moved<T>(s: State<T>, t: nat, pc: Pc<T>)
    requires t < |s.pcs|
    ensures Sum(s.pcs[t := pc], AsleepWeight()) == Sum(s.pcs, AsleepWeight()) - AsleepWeight()(s.pcs[t]) + AsleepWeight()(pc)
    ensures Sum(s.pcs[t := pc], HandlingWeight()) == Sum(s.pcs, HandlingWeight()) - HandlingWeight()(s.pcs[t]) + HandlingWeight()(pc)
  {
    SumUpdate(s.pcs, t, pc, AsleepWeight());
    SumUpdate(s.pcs, t, pc, HandlingWeight());
  }

  lemma NotifyOk<T>(s: State<T>, t: nat, u: nat, s': State<T>)
    requires QueueOk(s) && Notify(s, t, u, s')
    ensures QueueOk(s')
  {
    Moved(s, t, Idle);
    if exists v :: 0 <= v < |s.pcs| && s.pcs[v].Asleep? {
      Moved(s.(pcs := s.pcs[t := Idle]), u, Woken);
      SomeoneAsleep(s, u);
    } else {
      NobodyAsleep(s);
    }
  }

  lemma PushOk<T>(s: State<T>, t: nat, s': State<T>)
    requires QueueOk(s) && TryPush(s, t, s')
    ensures QueueOk(s')
  {
    Moved(s, t, s'.pcs[t]);
    assert s.popped + (s.queue + [s.pcs[t].item]) == s.popped + s.queue + [s.pcs[t].item];
  }

  lemma PopOk<T>(s: State<T>, t: nat, s': State<T>)
    requires QueueOk(s) && Pop(s, t, s')
    ensures QueueOk(s')
  {
    Moved(s, t, s'.pcs[t]);
    if s.queue == [] {
      SumNonNegative(s'.pcs, HandlingWeight());
    } else {
      assert s.popped + s.queue == (s.popped + [s.queue[0]]) + s.queue[1..];
    }
  }

  lemma StepQueue<T>(s: State<T>, t: nat, u: nat, s': State<T>)
    requires QueueOk(s) && Step(s, t, u, s')
    ensures QueueOk(s')
  {
    hide AcceptedIn, PoppedIn;
    if Notify(s, t, u, s') {
      NotifyOk(s, t, u, s');
    } else if TryPush(s, t, s') {
      PushOk(s, t, s');
    } else if Pop(s, t, s') {
      PopOk(s, t, s');
    } else {
      Moved(s, t, s'.pcs[t]);
    }
  }

  /** The thread that moves, and what it adds to the answers. */
  lemma StepAnswer<T>(s: State<T>, t: nat, u: nat, s': State<T>)
    requires Step(s, t, u, s') && !Notify(s, t, u, s')
    ensures t < |s.pcs| == |s'.pcs| && s'.pcs == s.pcs[t := s'.pcs[t]]
    ensures s'.calls + OpenWeight()(s.pcs[t]) - |s'.answers| == s.calls + OpenWeight()(s'.pcs[t]) - |s.answers|
    ensures s'.answers != s.answers ==> |s'.answers| == |s.answers| + 1 && s'.answers == s.answers + [s'.answers[|s.answers|]]
    ensures s'.answers == s.answers ==> s'.pushed == s.pushed && s'.popped == s.popped
    ensures s'.answers != s.answers ==> var a := s'.answers[|s.answers|];
      && s'.pushed == s.pushed + (match a case Accepted(item) => [item] case _ => [])
      && s'.popped == s.popped + (match a case Popped(item) => [item] case _ => [])
  {
    match s.pcs[t] {
      case PushLocked(_) =>
      case PopLocked(_) =>
      case SizeLocked =>
      case _ =>
    }
  }

  lemma StepAnswers<T>(s: State<T>, t: nat, u: nat, s': State<T>)
    requires AnswersOk(s) && Step(s, t, u, s')
    ensures AnswersOk(s')
  {
    if Notify(s, t, u, s') {
      SumUpdate(s.pcs, t, Idle, OpenWeight());
      if exists v :: 0 <= v < |s.pcs| && s.pcs[v].Asleep? {
        SumUpdate(s.pcs[t := Idle], u, Woken, OpenWeight());
      }
    } else {
      StepAnswer(s, t, u, s');
      hide Step, AcceptedIn, PoppedIn, Sum;
      SumUpdate(s.pcs, t, s'.pcs[t], OpenWeight());
      if s'.answers != s.answers {
        AnswersSnoc(s.answers, s'.answers[|s.answers|]);
      }
    }
  }

  /** Every step of every thread keeps the invariant. */
  lemma StepInv<T>(s: State<T>, t: nat, u: nat, s': State<T>)
    requires Inv(s) && Step(s, t, u, s')
    ensures Inv(s')
  {
    hide Step, QueueOk, AnswersOk;
    StepQueue(s, t, u, s');
    StepAnswers(s, t, u, s');
  }

  lemma {:induction false} RunInv<T>(states: seq<State<T>>, i: nat)
    requires Run(states) && i < |states|
    ensures Inv(states[i])
  {
    if i == 0 {
      InitInv(states[0]);
    } else {
      RunInv(states, i - 1);
      var t, u :| Step(states[i - 1], t, u, states[i]);
      StepInv(states[i - 1], t, u, states[i]);
    }
  }

  // ---- what the invariant means over whole runs ----

  /** In every reachable state: elements come out in the order they went in, the capacity is respected,
      at most one thread is in a critical section, and no wakeup is lost. */
  lemma RunSafety<T>(states: seq<State<T>>, i: nat)
    requires Run(states) && i < |states|
    ensures states[i].pushed == states[i].popped + states[i].queue
    ensures |states[i].queue| <= states[i].maxSize
    ensures forall t, u | 0 <= t < |states[i].pcs| && 0 <= u < |states[i].pcs| ::
              (HoldsMutex(states[i].pcs[t]) && HoldsMutex(states[i].pcs[u]) ==> t == u)
    ensures NoLostWakeup(states[i])
  {
    RunInv(states, i);
  }

  /** Every answer given in a run is right at the moment it is given. An element is refused only when the queue is full
      and accepted only when it is not, and then it is the last one pushed; pop returns the front and size the length. */
  lemma AnswersAreRight<T>(states: seq<State<T>>, i: nat)
    requires Run(states) && i + 1 < |states| && states[i + 1].answers != states[i].answers
    ensures var s, s', n := states[i], states[i + 1], |states[i].answers|;
      && |s'.answers| == n + 1 && s'.answers[..n] == s.answers
      && match s'.answers[n]
         case Accepted(x) => |s.queue| < s.maxSize && s'.queue == s.queue + [x] && s'.pushed == s.pushed + [x] && s'.popped == s.popped
         case Refused(x) => |s.queue| == s.maxSize && s'.queue == s.queue && s'.pushed == s.pushed && s'.popped == s.popped
         case Popped(x) => s.queue == [x] + s'.queue && s'.popped == s.popped + [x] && s'.pushed == s.pushed
         case Sized(k) => k == |s.queue| && s'.queue == s.queue && s'.pushed == s.pushed && s'.popped == s.popped
  {
    RunInv(states, i);
    var t, u :| Step(states[i], t, u, states[i + 1]);
    RightAnswer(states[i], t, u, states[i + 1]);
  }

  lemma RightAnswer<T>(s: State<T>, t: nat, u: nat, s': State<T>)
    requires QueueOk(s) && Step(s, t, u, s') && s'.answers != s.answers
    ensures var n := |s.answers|;
      && |s'.answers| == n + 1 && s'.answers[..n] == s.answers
      && match s'.answers[n]
         case Accepted(x) => |s.queue| < s.maxSize && s'.queue == s.queue + [x] && s'.pushed == s.pushed + [x] && s'.popped == s.popped
         case Refused(x) => |s.queue| == s.maxSize && s'.queue == s.queue && s'.pushed == s.pushed && s'.popped == s.popped
         case Popped(x) => s.queue == [x] + s'.queue && s'.popped == s.popped + [x] && s'.pushed == s.pushed
         case Sized(k) => k == |s.queue| && s'.queue == s.queue && s'.pushed == s.pushed && s'.popped == s.popped
  {
    match s.pcs[t] {
      case PushLocked(_) =>
      case PopLocked(_) =>
      case SizeLocked =>
      case _ =>
    }
  }

  /** In every reachable state each call made has been answered or is open, and the elements accepted and returned by
      the calls are, in order, those pushed and popped. */
  lemma AnswersAddUp<T>(states: seq<State<T>>, i: nat)
    requires Run(states) && i < |states|
    ensures states[i].calls == |states[i].answers| + Sum(states[i].pcs, OpenWeight())
    ensures AcceptedIn(states[i].answers) == states[i].pushed && PoppedIn(states[i].answers) == states[i].popped
  {
    RunInv(states, i);
  }

  /** What a thread does when it holds the mutex: with room its element is pushed, without it is refused; the front
      is returned, or it sleeps. */
  lemma InsideTheMutex<T>(s: State<T>, t: nat, u: nat, s': State<T>)
    requires Internal(s, t, u, s')
    ensures s.pcs[t].PushLocked? && |s.queue| < s.maxSize ==>
      s'.pushed == s.pushed + [s.pcs[t].item] && s'.queue == s.queue + [s.pcs[t].item] && s'.answers == s.answers + [Accepted(s.pcs[t].item)]
    ensures s.pcs[t].PushLocked? && |s.queue| >= s.maxSize ==>
      s'.pushed == s.pushed && s'.answers == s.answers + [Refused(s.pcs[t].item)]
    ensures s.pcs[t].PopLocked? && s.queue != [] ==> s'.answers == s.answers + [Popped(s.queue[0])] && s'.pcs[t].Idle?
    ensures s.pcs[t].PopLocked? && s.queue == [] ==> s'.answers == s.answers && s'.pcs[t].Asleep?
    ensures s.pcs[t].SizeLocked? ==> s'.answers == s.answers + [Sized(|s.queue|)] && s'.pcs[t].Idle?
  {
    match s.pcs[t] {
      case PushLocked(_) =>
      case PopLocked(_) =>
      case SizeLocked =>
      case _ =>
    }
  }

  /** Every thread is between calls or asleep. */
  ghost predicate Settled<T>(s: State<T>) {
    forall t :: 0 <= t < |s.pcs| ==> s.pcs[t].Idle? || s.pcs[t].Asleep?
  }

  /** No lost wakeup: once everything has settled, a consumer can only be asleep because the queue is empty. */
  lemma SettledSleepersHaveNothingToPop<T>(s: State<T>, v: nat)
    requires Inv(s) && Settled(s) && v < |s.pcs| && s.pcs[v].Asleep?
    ensures s.queue == []
  {
    SomeoneAsleep(s, v);
    SumZero(s.pcs, HandlingWeight());
  }

  function Work<T>(): Pc<T> -> int {
    (pc: Pc<T>) =>
      match pc
      case Idle => 0
      case Asleep => 0
      case PopLocked(_) => 1
      case SizeLocked => 1
      case Woken => 2
      case PopStart => 2
      case SizeStart => 2
      case PushNotify => 3
      case PushLocked(_) => 4
      case PushStart(_) => 5
  }

  /** Every internal step uses up work, so calls in progress cannot go on for ever. */
  lemma WorkDecreases<T>(s: State<T>, t: nat, u: nat, s': State<T>)
    requires Internal(s, t, u, s')
    ensures 0 <= Sum(s'.pcs, Work()) < Sum(s.pcs, Work())
  {
    SumNonNegative(s'.pcs, Work());
    if Notify(s, t, u, s') {
      SumUpdate(s.pcs, t, Idle, Work());
      if exists v :: 0 <= v < |s.pcs| && s.pcs[v].Asleep? {
        SumUpdate(s.pcs[t := Idle], u, Woken, Work());
      }
    } else {
      SumUpdate(s.pcs, t, s'.pcs[t], Work());
    }
  }

  /** No deadlock: unless everything has settled, some thread inside a call can take its next step. */
  lemma Progress<T>(s: State<T>) returns (t: nat, u: nat, s': State<T>)
    requires Inv(s) && !Settled(s)
    ensures Internal(s, t, u, s')
  {
    if s.mutex.Some? {
      t, u := s.mutex.value, 0;
      match s.pcs[t] {
        case PushLocked(item) =>
          s' := if |s.queue| < s.maxSize
                then s.(queue := s.queue + [item], pushed := s.pushed + [item], answers := s.answers + [Accepted(item)],
                        mutex := None, pcs := s.pcs[t := PushNotify])
                else s.(answers := s.answers + [Refused(item)], mutex := None, pcs := s.pcs[t := Idle]);
        case PopLocked(_) =>
          s' := if s.queue == []
                then s.(mutex := None, pcs := s.pcs[t := Asleep])
                else s.(queue := s.queue[1..], popped := s.popped + [s.queue[0]], answers := s.answers + [Popped(s.queue[0])],
                        mutex := None, pcs := s.pcs[t := Idle]);
        case SizeLocked =>
          s' := s.(answers := s.answers + [Sized(|s.queue|)], mutex := None, pcs := s.pcs[t := Idle]);
      }
    } else {
      t :| 0 <= t < |s.pcs| && !s.pcs[t].Idle? && !s.pcs[t].Asleep?;
      u := 0;
      if s.pcs[t].PushNotify? {
        s' := s.(pcs := s.pcs[t := Idle]);
        if exists v :: 0 <= v < |s.pcs| && s.pcs[v].Asleep? {
          u :| 0 <= u < |s.pcs| && s.pcs[u].Asleep?;
          s' := s.(pcs := s.pcs[t := Idle][u := Woken]);
        }
      } else {
        s' := s.(mutex := Some(t), pcs := s.pcs[t := LockedPc(s.pcs[t]).value]);
      }
    }
  }

  /** A schedule in which no new call is made and nobody wakes up spuriously. */
  ghost predicate Drain<T>(states: seq<State<T>>) {
    && states != []
    && forall i :: 0 <= i < |states| - 1 ==> InternalNext(states[i], states[i + 1])
  }

  lemma {:induction false} DrainInv<T>(states: seq<State<T>>, i: nat)
    requires Drain(states) && Inv(states[0]) && i < |states|
    ensures Inv(states[i])
  {
    if i > 0 {
      DrainInv(states, i - 1);
      assert InternalNext(states[i - 1], states[i - 1 + 1]);
      hide *;
      InternalNextWork(states[i - 1], states[i]);
    }
  }

  lemma InternalNextWork<T>(s: State<T>, s': State<T>)
    requires InternalNext(s, s') && Inv(s)
    ensures Sum(s'.pcs, Work()) < Sum(s.pcs, Work()) && Inv(s')
  {
    hide Internal, Inv;
    var t, u := Witness(s, s');
    hide InternalNext, Step;
    WorkDecreases(s, t, u, s');
    StepInv(s, t, u, s');
  }

  ghost predicate Stuck<T(!new)>(s: State<T>) {
    forall s' :: !InternalNext(s, s')
  }

  /** Every schedule drains: it is at most as long as the work there is. */
  lemma DrainEnds<T>(states: seq<State<T>>)
    requires Drain(states) && Inv(states[0])
    ensures |states| - 1 <= Sum(states[0].pcs, Work())
    ensures Inv(states[|states| - 1])
  {
    hide Work, Sum, InternalNext, Inv;
    var ws := seq(|states|, i requires 0 <= i < |states| => Sum(states[i].pcs, Work()));
    forall i | 0 <= i < |ws| - 1 ensures ws[i + 1] < ws[i] {
      DrainInv(states, i);
      InternalNextWork(states[i], states[i + 1]);
    }
    DrainInv(states, |states| - 1);
    WorkNonNegative(states[|states| - 1]);
    Descent(ws);
  }

  lemma WorkNonNegative<T>(s: State<T>)
    ensures Sum(s.pcs, Work()) >= 0
  {
    SumNonNegative(s.pcs, Work());
  }

  lemma Witness<T>(s: State<T>, s': State<T>) returns (t: nat, u: nat)
    requires InternalNext(s, s')
    ensures Internal(s, t, u, s') && Step(s, t, u, s')
  {
    t, u :| Internal(s, t, u, s');
  }

  /** When a schedule cannot be prolonged, every call has returned, except consumers asleep on an empty queue. */
  lemma StuckMeansServed<T(!new)>(s: State<T>, t: nat)
    requires Inv(s) && Stuck(s) && t < |s.pcs|
    ensures s.pcs[t].Idle? || (s.pcs[t].Asleep? && s.queue == [])
  {
    if !Settled(s) {
      var t', u, s' := Progress(s);
      assert InternalNext(s, s');
    } else if s.pcs[t].Asleep? {
      SettledSleepersHaveNothingToPop(s, t);
    }
  }

  // ---- with room for everybody nobody is refused ----

  /** An element on its way into the queue. */
  function OfferWeight<T>(): Pc<T> -> int {
    (pc: Pc<T>) => if pc.PushStart? || pc.PushLocked? then 1 else 0
  }

  /** As long as there is room for all offers, every step leaves it so, and what is pushed or on offer is not lost. */
  lemma OffersKept<T>(s: State<T>, s': State<T>)
    requires InternalNext(s, s') && |s.queue| + Sum(s.pcs, OfferWeight()) <= s.maxSize
    ensures |s'.queue| + Sum(s'.pcs, OfferWeight()) <= s'.maxSize
    ensures |s'.pushed| + Sum(s'.pcs, OfferWeight()) == |s.pushed| + Sum(s.pcs, OfferWeight())
  {
    var t, u := Witness(s, s');
    if Notify(s, t, u, s') {
      SumUpdate(s.pcs, t, Idle, OfferWeight());
      if exists v :: 0 <= v < |s.pcs| && s.pcs[v].Asleep? {
        SumUpdate(s.pcs[t := Idle], u, Woken, OfferWeight());
      }
    } else {
      SumUpdate(s.pcs, t, s'.pcs[t], OfferWeight());
      if s.pcs[t].PushLocked? {
        SumAtLeast(s.pcs, t, OfferWeight());
      }
    }
  }

  lemma {:induction false} OffersKeptAlong<T>(states: seq<State<T>>, i: nat)
    requires Drain(states) && |states[0].queue| + Sum(states[0].pcs, OfferWeight()) <= states[0].maxSize && i < |states|
    ensures |states[i].queue| + Sum(states[i].pcs, OfferWeight()) <= states[i].maxSize
    ensures |states[i].pushed| + Sum(states[i].pcs, OfferWeight()) == |states[0].pushed| + Sum(states[0].pcs, OfferWeight())
  {
    if i > 0 {
      OffersKeptAlong(states, i - 1);
      assert InternalNext(states[i - 1], states[i - 1 + 1]);
      hide *;
      OffersKept(states[i - 1], states[i]);
    }
  }

  /** When all calls have been served, as many elements have been pushed as were on offer: if there was room for all
      of them, none has been refused. */
  lemma RoomForAll<T(!new)>(states: seq<State<T>>)
    requires Drain(states) && Inv(states[0]) && Stuck(states[|states| - 1])
    requires |states[0].queue| + Sum(states[0].pcs, OfferWeight()) <= states[0].maxSize
    ensures |states[|states| - 1].pushed| == |states[0].pushed| + Sum(states[0].pcs, OfferWeight())
  {
    var n := |states| - 1;
    var last := states[n];
    DrainInv(states, n);
    OffersKeptAlong(states, n);
    forall t | 0 <= t < |last.pcs| ensures OfferWeight()(last.pcs[t]) == 0 {
      StuckMeansServed(last, t);
    }
    SumZero(last.pcs, OfferWeight());
  }

  /** And then every call has been answered, apart from consumers asleep on an empty queue. */
  lemma StuckMeansAnswered<T(!new)>(s: State<T>)
    requires Inv(s) && Stuck(s)
    ensures s.calls == |s.answers| + Sum(s.pcs, AsleepWeight())
  {
    forall t | 0 <= t < |s.pcs| ensures OpenWeight()(s.pcs[t]) == AsleepWeight()(s.pcs[t]) {
      StuckMeansServed(s, t);
    }
    SameSums(s.pcs, OpenWeight(), AsleepWeight());
  }

  lemma {:induction false} SameSums<T>(pcs: seq<Pc<T>>, f: Pc<T> -> int, g: Pc<T> -> int)
    requires forall t :: 0 <= t < |pcs| ==> f(pcs[t]) == g(pcs[t])
    ensures Sum(pcs, f) == Sum(pcs, g)
  {
    if pcs != [] {
      SameSums(pcs[1..], f, g);
    }
  }
}
