/** The policy-dependent request semaphore, and the accumulated waiting time that its holder updates
    field by field. One step is one action of one thread. */
module RequestSemaphore {
  import opened Sequences
  import opened Sums
  import opened WaitClock

  datatype SemOpType = SemReadOp | SemWriteOp | SemReadWriteOp | SemNoneOp

  /** Must an operation of type `op` take the semaphore under this policy? */
  predicate Covered(policy: SemOpType, op: SemOpType) {
    && policy != SemNoneOp
    && !(policy == SemWriteOp && op == SemReadOp)
    && !(policy == SemReadOp && op == SemWriteOp)
  }

  datatype Pc =
    | Idle
    | Waiting(op: SemOpType, start: Time)  // in sem_wait
    | Measured(op: SemOpType, diff: Time)  // sem_wait returned, the waiting time is known
    | NsecAdded(op: SemOpType, diff: Time) // in clock_addtime, after the nanoseconds
    | SecAdded(op: SemOpType)              // in clock_addtime, after the seconds
    | Carried(op: SemOpType)               // in clock_addtime, second carried, nanoseconds not yet reduced
    | Holding(op: SemOpType)               // reqSemTake returned with *taken == true
    | Running(op: SemOpType)               // reqSemTake returned with *taken == false

  /** `measured` is the sum of all measured waiting times and `failedWaits` the number of times sem_wait
      returned an error (it may be interrupted); both are histories. */
  datatype State = State(policy: SemOpType, statistics: bool, free: nat, acc: Time, pcs: seq<Pc>, measured: int, failedWaits: nat)

  ghost predicate Init(s: State) {
    && s.free == 1 && s.acc == Time(0, 0) && s.measured == 0 && s.failedWaits == 0
    && forall t :: 0 <= t < |s.pcs| ==> s.pcs[t] == Idle
  }

  function At(s: State, t: nat, pc: Pc): State
    requires t < |s.pcs|
  {
    s.(pcs := s.pcs[t := pc])
  }

  // ---- the actions ----

  ghost predicate Take(s: State, t: nat, op: SemOpType, now: Time, s': State) {
    && t < |s.pcs| && s.pcs[t].Idle? && now.Normal()
    && s' == At(s, t, if Covered(s.policy, op) then Waiting(op, now) else Running(op))
  }

  /** What follows sem_wait is the same whether it succeeded or not: the time is measured and *taken is true. */
  function AfterWait(s: State, t: nat, now: Time): State
    requires t < |s.pcs| && s.pcs[t].Waiting?
  {
    var op, diff := s.pcs[t].op, DiffTime(now, s.pcs[t].start);
    if s.statistics then At(s, t, Measured(op, diff)).(measured := s.measured + diff.Value())
    else At(s, t, Holding(op))
  }

  ghost predicate SemWait(s: State, t: nat, now: Time, s': State) {
    && t < |s.pcs| && s.pcs[t].Waiting? && s.free > 0 && now.Normal()
    && s' == AfterWait(s, t, now).(free := s.free - 1)
  }

  ghost predicate SemWaitFails(s: State, t: nat, now: Time, s': State) {
    && t < |s.pcs| && s.pcs[t].Waiting? && now.Normal()
    && s' == AfterWait(s, t, now).(failedWaits := s.failedWaits + 1)
  }

  /** The assignments of clock_addtime, one at a time. */
  ghost predicate AddToAccumulator(s: State, t: nat, s': State) {
    && t < |s.pcs|
    && match s.pcs[t]
       case Measured(op, diff) => s' == At(s, t, NsecAdded(op, diff)).(acc := Time(s.acc.sec, s.acc.nsec + diff.nsec))
       case NsecAdded(op, diff) => s' == At(s, t, SecAdded(op)).(acc := Time(s.acc.sec + diff.sec, s.acc.nsec))
       case SecAdded(op) =>
         s' == if s.acc.nsec >= 1000000000 then At(s, t, Carried(op)).(acc := Time(s.acc.sec + 1, s.acc.nsec)) else At(s, t, Holding(op))
       case Carried(op) => s' == At(s, t, Holding(op)).(acc := Time(s.acc.sec, s.acc.nsec - 1000000000))
       case _ => false
  }

  /** reqSemGive posts only when taken is true. */
  ghost predicate Give(s: State, t: nat, s': State) {
    && t < |s.pcs| && (s.pcs[t].Holding? || s.pcs[t].Running?)
    && s' == At(s, t, Idle).(free := s.free + if s.pcs[t].Holding? then 1 else 0)
  }

  datatype Action = ATake(op: SemOpType, now: Time) | AWait(now: Time) | AFail(now: Time) | AAdd | AGive

  ghost predicate Step(s: State, t: nat, a: Action, s': State) {
    match a
    case ATake(op, now) => Take(s, t, op, now, s')
    case AWait(now) => SemWait(s, t, now, s')
    case AFail(now) => SemWaitFails(s, t, now, s')
    case AAdd => AddToAccumulator(s, t, s')
    case AGive => Give(s, t, s')
  }

  ghost predicate Next(s: State, s': State) {
    exists t, a :: Step(s, t, a, s')
  }

  ghost predicate Run(states: seq<State>) {
    && states != [] && Init(states[0])
    && forall i :: 0 <= i < |states| - 1 ==> Next(states[i], states[i + 1])
  }

  // ---- the invariant ----

  predicate Taken(pc: Pc) {
    pc.Measured? || pc.NsecAdded? || pc.SecAdded? || pc.Carried? || pc.Holding?
  }

  function TakenWeight(): Pc -> int {
    (pc: Pc) => if Taken(pc) then 1 else 0
  }

  /** What a thread in clock_addtime has still to add. */
  function Owed(): Pc -> int {
    (pc: Pc) =>
      match pc
      case Measured(_, diff) => diff.Value()
      case NsecAdded(_, diff) => diff.sec * NANOS
      case Carried(_) => -NANOS
      case _ => 0
  }

  /** The shape of the accumulator while thread `pc` is at work on it. */
  predicate Shape(acc: Time, pc: Pc) {
    match pc
    case Waiting(_, start) => start.Normal()
    case Measured(_, diff) => diff.Normal() && acc.Normal()
    case NsecAdded(_, _) => 0 <= acc.nsec < 2 * NANOS
    case SecAdded(_) => 0 <= acc.nsec < 2 * NANOS
    case Carried(_) => NANOS <= acc.nsec < 2 * NANOS
    case Holding(_) => acc.Normal()
    case _ => true
  }

  predicate Updating(pc: Pc) {
    pc.NsecAdded? || pc.SecAdded? || pc.Carried?
  }

  ghost predicate Counted(s: State) {
    s.free + Sum(s.pcs, TakenWeight()) == 1 + s.failedWaits
  }

  ghost predicate AccOk(s: State) {
    && (forall t :: 0 <= t < |s.pcs| ==> Shape(s.acc, s.pcs[t]))
    && ((forall t :: 0 <= t < |s.pcs| ==> !Updating(s.pcs[t])) ==> s.acc.Normal())
    && s.acc.Value() + Sum(s.pcs, Owed()) == s.measured
  }

  /** A thread waits for the semaphore, or has it, exactly when the policy covers its operation. */
  predicate ByPolicy(policy: SemOpType, pc: Pc) {
    match pc
    case Idle => true
    case Running(op) => !Covered(policy, op)
    case _ => Covered(policy, pc.op)
  }

  ghost predicate PolicyOk(s: State) {
    forall t :: 0 <= t < |s.pcs| ==> ByPolicy(s.policy, s.pcs[t])
  }

  ghost predicate Inv(s: State) {
    Counted(s) && PolicyOk(s) && (s.failedWaits == 0 ==> AccOk(s))
  }

  lemma StepPolicy(s: State, t: nat, a: Action, s': State)
    requires Step(s, t, a, s') && PolicyOk(s)
    ensures PolicyOk(s')
  {
    StepFrame(s, t, a, s');
    assert s'.policy == s.policy && ByPolicy(s.policy, s.pcs[t]);
    assert ByPolicy(s'.policy, s'.pcs[t]);
    hide Step;
    forall u | 0 <= u < |s'.pcs| ensures ByPolicy(s'.policy, s'.pcs[u]) {
      assert u != t ==> s'.pcs[u] == s.pcs[u];
    }
  }

  lemma StepFrame(s: State, t: nat, a: Action, s': State)
    requires Step(s, t, a, s')
    ensures t < |s.pcs| && |s'.pcs| == |s.pcs| && s'.pcs == s.pcs[t := s'.pcs[t]]
    ensures s'.failedWaits == s.failedWaits + (if a.AFail? then 1 else 0)
    ensures s'.free - s.free + TakenWeight()(s'.pcs[t]) - TakenWeight()(s.pcs[t]) == (if a.AFail? then 1 else 0)
  {
  }

  /** Free count plus takers is one more than the failed waits. */
  lemma StepCounted(s: State, t: nat, a: Action, s': State)
    requires Counted(s) && Step(s, t, a, s')
    ensures Counted(s')
  {
    hide Step;
    StepFrame(s, t, a, s');
    SumUpdate(s.pcs, t, s'.pcs[t], TakenWeight());
  }

  /** As long as no wait failed, at most one thread has taken the semaphore. */
  lemma OnlyTaker(s: State, t: nat, u: nat)
    requires Counted(s) && s.failedWaits == 0 && t < |s.pcs| && u < |s.pcs|
    requires Taken(s.pcs[t]) && Taken(s.pcs[u])
    ensures t == u && s.free == 0
  {
    if t < u {
      SumAtLeastTwo(s.pcs, t, u, TakenWeight());
    } else if u < t {
      SumAtLeastTwo(s.pcs, u, t, TakenWeight());
    } else {
      SumAtLeast(s.pcs, t, TakenWeight());
    }
  }

  lemma SemFree(s: State, u: nat)
    requires Counted(s) && s.failedWaits == 0 && s.free > 0 && u < |s.pcs|
    ensures !Taken(s.pcs[u])
  {
    if Taken(s.pcs[u]) {
      OnlyTaker(s, u, u);
    }
  }

  lemma MoverAcc(s: State, t: nat, a: Action, s': State)
    requires t < |s.pcs| && |s'.pcs| == |s.pcs| && Shape(s.acc, s.pcs[t]) && Step(s, t, a, s') && !a.AFail?
    requires a.AWait? ==> s.acc.Normal()
    ensures Shape(s'.acc, s'.pcs[t])
    ensures s'.acc.Value() + Owed()(s'.pcs[t]) - Owed()(s.pcs[t]) == s.acc.Value() + s'.measured - s.measured
    ensures !Taken(s.pcs[t]) || s.pcs[t].Holding? ==> s'.acc == s.acc
    ensures Updating(s.pcs[t]) && !Updating(s'.pcs[t]) ==> s'.acc.Normal()
    ensures s.pcs[t].Measured? ==> Updating(s'.pcs[t])
  {
    if a.AWait? {
      DiffTimeExact(a.now, s.pcs[t].start);
    }
  }

  lemma StepAcc(s: State, t: nat, a: Action, s': State)
    requires Counted(s) && AccOk(s) && Step(s, t, a, s') && s'.failedWaits == 0
    ensures AccOk(s')
  {
    hide Step;
    StepFrame(s, t, a, s');
    if a.AWait? {
      WaitNormal(s, t, a, s');
    }
    MoverAcc(s, t, a, s');
    SumUpdate(s.pcs, t, s'.pcs[t], Owed());
    forall u | 0 <= u < |s'.pcs| ensures Shape(s'.acc, s'.pcs[u]) {
      if u != t {
        assert s'.pcs[u] == s.pcs[u];
        if Taken(s.pcs[t]) && Taken(s.pcs[u]) {
          OnlyTaker(s, t, u);
        }
      }
    }
    AccNormal(s, t, a, s');
  }

  lemma WaitNormal(s: State, t: nat, a: Action, s': State)
    requires Counted(s) && AccOk(s) && s.failedWaits == 0 && Step(s, t, a, s') && a.AWait?
    ensures s.acc.Normal()
  {
    forall u | 0 <= u < |s.pcs| ensures !Updating(s.pcs[u]) {
      SemFree(s, u);
    }
  }

  lemma AccNormal(s: State, t: nat, a: Action, s': State)
    requires t < |s.pcs| == |s'.pcs| && s'.pcs == s.pcs[t := s'.pcs[t]] && AccOk(s)
    requires !Taken(s.pcs[t]) || s.pcs[t].Holding? ==> s'.acc == s.acc
    requires Updating(s.pcs[t]) && !Updating(s'.pcs[t]) ==> s'.acc.Normal()
    requires s.pcs[t].Measured? ==> Updating(s'.pcs[t])
    ensures (forall u :: 0 <= u < |s'.pcs| ==> !Updating(s'.pcs[u])) ==> s'.acc.Normal()
  {
    if forall u :: 0 <= u < |s'.pcs| ==> !Updating(s'.pcs[u]) {
      assert forall u :: 0 <= u < |s.pcs| && u != t ==> s.pcs[u] == s'.pcs[u];
    }
  }

  lemma InitInv(s: State)
    requires Init(s)
    ensures Inv(s)
  {
    SumZero(s.pcs, TakenWeight());
    SumZero(s.pcs, Owed());
  }

  lemma StepInv(s: State, s': State)
    requires Inv(s) && Next(s, s')
    ensures Inv(s')
  {
    var t, a :| Step(s, t, a, s');
    hide Step;
    StepFrame(s, t, a, s');
    StepCounted(s, t, a, s');
    StepPolicy(s, t, a, s');
    if s'.failedWaits == 0 {
      StepAcc(s, t, a, s');
    }
  }

  lemma {:induction false} RunInv(states: seq<State>, i: nat)
    requires Run(states) && i < |states|
    ensures Inv(states[i])
  {
    hide Inv;
    if i == 0 {
      InitInv(states[0]);
    } else {
      RunInv(states, i - 1);
      assert Next(states[i - 1], states[i - 1 + 1]);
      StepInv(states[i - 1], states[i]);
    }
  }

  // ---- what it means over whole runs ----

  /** Under every policy the free count plus the number of threads with taken == true is 1 exactly as long
      as no sem_wait has failed; each failed one adds 1 to it for good. */
  lemma FreePlusTaken(states: seq<State>, i: nat)
    requires Run(states) && i < |states|
    ensures states[i].free + Sum(states[i].pcs, TakenWeight()) == 1 + states[i].failedWaits
    ensures states[i].free + Sum(states[i].pcs, TakenWeight()) == 1 <==> states[i].failedWaits == 0
  {
    RunInv(states, i);
  }

  /** reqSemTake has returned, and reqSemGive has not been called. */
  predicate Inside(pc: Pc) {
    pc.Holding? || pc.Running?
  }

  /** Operations that the policy covers exclude each other, as long as no sem_wait has failed. */
  lemma CoveredExclude(states: seq<State>, i: nat, t: nat, u: nat)
    requires Run(states) && i < |states| && states[i].failedWaits == 0
    requires t < |states[i].pcs| && u < |states[i].pcs| && t != u
    requires Inside(states[i].pcs[t]) && Inside(states[i].pcs[u])
    ensures !(Covered(states[i].policy, states[i].pcs[t].op) && Covered(states[i].policy, states[i].pcs[u].op))
  {
    RunInv(states, i);
    var s := states[i];
    assert ByPolicy(s.policy, s.pcs[t]) && ByPolicy(s.policy, s.pcs[u]);
    if Taken(s.pcs[t]) && Taken(s.pcs[u]) {
      OnlyTaker(s, t, u);
    }
  }

  /** When a sem_wait fails, two covered operations can be inside together: a thread takes the semaphore, and
      another one is let in because its wait is interrupted. */
  lemma FailedWaitLetsIn() returns (states: seq<State>)
    ensures Run(states) && |states| == 5
    ensures var s := states[4];
      && |s.pcs| == 2 && s.failedWaits == 1 && Inside(s.pcs[0]) && Inside(s.pcs[1])
      && Covered(s.policy, s.pcs[0].op) && Covered(s.policy, s.pcs[1].op)
  {
    var now, op := Time(0, 0), SemReadWriteOp;
    var s0 := State(op, false, 1, now, [Idle, Idle], 0, 0);
    var s1 := At(s0, 0, Waiting(op, now));
    var s2 := At(s1, 0, Holding(op)).(free := 0);
    var s3 := At(s2, 1, Waiting(op, now));
    var s4 := At(s3, 1, Holding(op)).(failedWaits := 1);
    states := [s0, s1, s2, s3, s4];
    assert Step(s0, 0, ATake(op, now), s1);
    assert Step(s1, 0, AWait(now), s2);
    assert Step(s2, 1, ATake(op, now), s3);
    assert Step(s3, 1, AFail(now), s4);
  }

  /** The accumulated time plus what the one thread inside clock_addtime still has to add is the sum of
      all measured waits; outside clock_addtime it is exactly that sum, and normalised. */
  lemma AccumulatedWait(states: seq<State>, i: nat)
    requires Run(states) && i < |states| && states[i].failedWaits == 0
    ensures states[i].acc.Value() + Sum(states[i].pcs, Owed()) == states[i].measured
    ensures (forall t :: 0 <= t < |states[i].pcs| ==> !Updating(states[i].pcs[t]) && !states[i].pcs[t].Measured?) ==>
      states[i].acc.Normal() && states[i].acc.Value() == states[i].measured
  {
    RunInv(states, i);
    if forall t :: 0 <= t < |states[i].pcs| ==> !Updating(states[i].pcs[t]) && !states[i].pcs[t].Measured? {
      SumZero(states[i].pcs, Owed());
    }
  }

  /** Undisturbed, the four assignments amount to clock_addtime. */
  lemma AssignmentsAreAddTime(s0: State, t: nat, s1: State, s2: State, s3: State, s4: State)
    requires t < |s0.pcs| && s0.pcs[t].Measured?
    requires AddToAccumulator(s0, t, s1) && AddToAccumulator(s1, t, s2) && AddToAccumulator(s2, t, s3)
    requires if s3.pcs[t].Carried? then AddToAccumulator(s3, t, s4) else s4 == s3
    ensures s4.acc == AddTime(s0.acc, s0.pcs[t].diff) && s4.pcs[t].Holding?
  {
  }

  /** An operation the policy does not cover never blocks: whatever the other threads do and whoever holds
      the semaphore, it is let through, and it leaves the semaphore as it found it. */
  lemma UncoveredNeverBlocks(s: State, t: nat, op: SemOpType, now: Time) returns (running: State, done: State)
    requires t < |s.pcs| && s.pcs[t].Idle? && !Covered(s.policy, op) && now.Normal()
    ensures Step(s, t, ATake(op, now), running) && running.pcs[t] == Running(op)
    ensures Step(running, t, AGive, done) && done == s
  {
    running := At(s, t, Running(op));
    done := At(running, t, Idle);
    assert s.pcs[t := Running(op)][t := Idle] == s.pcs;
  }

  /** Under each policy: which requests go to sem_wait and which are let through. */
  lemma WhoWaits(s: State, t: nat, op: SemOpType, now: Time, s': State)
    requires Step(s, t, ATake(op, now), s')
    ensures s'.free == s.free && s'.pcs[t] in {Waiting(op, now), Running(op)}
    ensures s.policy == SemNoneOp ==> s'.pcs[t] == Running(op)
    ensures s.policy == SemReadWriteOp ==> s'.pcs[t] == Waiting(op, now)
    ensures s.policy == SemWriteOp ==> s'.pcs[t] == if op == SemReadOp then Running(op) else Waiting(op, now)
    ensures s.policy == SemReadOp ==> s'.pcs[t] == if op == SemWriteOp then Running(op) else Waiting(op, now)
  {
  }

  /** As long as no sem_wait has failed: writes exclude each other under the policies for writes and for both, reads
      under those for reads and for both, and under the last one a read and a write do too. */
  lemma PolicyExcludes(states: seq<State>, i: nat, t: nat, u: nat)
    requires Run(states) && i < |states| && states[i].failedWaits == 0
    requires t < |states[i].pcs| && u < |states[i].pcs| && t != u
    requires Inside(states[i].pcs[t]) && Inside(states[i].pcs[u])
    ensures states[i].policy != SemReadWriteOp
    ensures states[i].policy == SemWriteOp ==> !(states[i].pcs[t].op == SemWriteOp && states[i].pcs[u].op == SemWriteOp)
    ensures states[i].policy == SemReadOp ==> !(states[i].pcs[t].op == SemReadOp && states[i].pcs[u].op == SemReadOp)
  {
    CoveredExclude(states, i, t, u);
  }

  /** And nothing else does: a read under the policy for writes, a write under the one for reads, and anything under
      none goes through whoever is inside, and leaves the semaphore as it found it. */
  lemma PolicyLetsThrough(s: State, t: nat, op: SemOpType, now: Time) returns (running: State, done: State)
    requires t < |s.pcs| && s.pcs[t].Idle? && now.Normal()
    requires || s.policy == SemNoneOp || (s.policy == SemWriteOp && op == SemReadOp) || (s.policy == SemReadOp && op == SemWriteOp)
    ensures Step(s, t, ATake(op, now), running) && Inside(running.pcs[t]) && running.pcs == s.pcs[t := running.pcs[t]]
    ensures Step(running, t, AGive, done) && done == s
  {
    running, done := UncoveredNeverBlocks(s, t, op, now);
  }

  /** What a busy thread can do by itself. */
  lemma TakerSteps(s: State, t: nat) returns (a: Action, s': State)
    requires t < |s.pcs| && (Taken(s.pcs[t]) || s.pcs[t].Running?)
    ensures Step(s, t, a, s') && !a.ATake?
  {
    match s.pcs[t] {
      case Measured(op, diff) => a, s' := AAdd, At(s, t, NsecAdded(op, diff)).(acc := Time(s.acc.sec, s.acc.nsec + diff.nsec));
      case NsecAdded(op, diff) => a, s' := AAdd, At(s, t, SecAdded(op)).(acc := Time(s.acc.sec + diff.sec, s.acc.nsec));
      case SecAdded(op) =>
        a := AAdd;
        s' := if s.acc.nsec >= 1000000000 then At(s, t, Carried(op)).(acc := Time(s.acc.sec + 1, s.acc.nsec)) else At(s, t, Holding(op));
      case Carried(op) => a, s' := AAdd, At(s, t, Holding(op)).(acc := Time(s.acc.sec, s.acc.nsec - 1000000000));
      case Holding(_) => a, s' := AGive, At(s, t, Idle).(free := s.free + 1);
      case Running(_) => a, s' := AGive, At(s, t, Idle).(free := s.free + 0);
    }
  }

  /** No deadlock: whenever a thread is busy, some busy thread can take its next step. */
  lemma Progress(s: State, busy: nat) returns (t: nat, a: Action, s': State)
    requires Counted(s) && busy < |s.pcs| && !s.pcs[busy].Idle?
    ensures Step(s, t, a, s') && !a.ATake? && !a.AFail?
  {
    hide Step;
    if s.pcs[busy].Waiting? && s.free == 0 {
      t := SumPositive(s.pcs, TakenWeight());
      a, s' := TakerSteps(s, t);
      TakerDoesNotFail(s, t, a, s');
    } else if s.pcs[busy].Waiting? {
      t, a := busy, AWait(Time(0, 0));
      s' := AfterWait(s, t, Time(0, 0)).(free := s.free - 1);
      WaitSteps(s, t);
    } else {
      t := busy;
      a, s' := TakerSteps(s, t);
      TakerDoesNotFail(s, t, a, s');
    }
  }

  lemma WaitSteps(s: State, t: nat)
    requires t < |s.pcs| && s.pcs[t].Waiting? && s.free > 0
    ensures Step(s, t, AWait(Time(0, 0)), AfterWait(s, t, Time(0, 0)).(free := s.free - 1))
  {
  }

  lemma TakerDoesNotFail(s: State, t: nat, a: Action, s': State)
    requires t < |s.pcs| && !s.pcs[t].Waiting? && Step(s, t, a, s')
    ensures !a.AFail?
  {
  }

  function Work(): Pc -> int {
    (pc: Pc) =>
      match pc
      case Idle => 0
      case Running(_) => 1
      case Holding(_) => 1
      case Carried(_) => 2
      case SecAdded(_) => 3
      case NsecAdded(_, _) => 4
      case Measured(_, _) => 5
      case Waiting(_, _) => 6
  }

  lemma WorkMover(s: State, t: nat, a: Action, s': State)
    requires t < |s.pcs| == |s'.pcs| && Step(s, t, a, s') && !a.ATake?
    ensures Work()(s'.pcs[t]) < Work()(s.pcs[t])
  {
  }

  /** Every step other than a new request uses up work, so requests in progress finish. */
  lemma WorkDecreases(s: State, t: nat, a: Action, s': State)
    requires Step(s, t, a, s') && !a.ATake?
    ensures 0 <= Sum(s'.pcs, Work()) < Sum(s.pcs, Work())
  {
    hide Step;
    StepFrame(s, t, a, s');
    WorkMover(s, t, a, s');
    SumUpdate(s.pcs, t, s'.pcs[t], Work());
    SumNonNegative(s'.pcs, Work());
  }

  ghost predicate BusyStep(s: State, s': State) {
    exists t, a :: Step(s, t, a, s') && !a.ATake?
  }

  /** A schedule without new requests. */
  ghost predicate Drain(states: seq<State>) {
    states != [] && forall i :: 0 <= i < |states| - 1 ==> BusyStep(states[i], states[i + 1])
  }

  lemma BusyStepWork(s: State, s': State)
    requires BusyStep(s, s')
    ensures Sum(s'.pcs, Work()) < Sum(s.pcs, Work())
  {
    var t, a :| Step(s, t, a, s') && !a.ATake?;
    WorkDecreases(s, t, a, s');
  }

  /** Every schedule without new requests is at most as long as the work there is. */
  lemma DrainEnds(states: seq<State>)
    requires Drain(states)
    ensures |states| - 1 <= Sum(states[0].pcs, Work())
  {
    hide Work, Sum, BusyStep;
    var ws := seq(|states|, i requires 0 <= i < |states| => Sum(states[i].pcs, Work()));
    forall i | 0 <= i < |ws| - 1 ensures ws[i + 1] < ws[i] {
      BusyStepWork(states[i], states[i + 1]);
    }
    WorkNonNegative(states[|states| - 1]);
    Descent(ws);
  }

  lemma WorkNonNegative(s: State)
    ensures Sum(s.pcs, Work()) >= 0
  {
    SumNonNegative(s.pcs, Work());
  }

  /** When it cannot be prolonged, every request has been served. */
  lemma StuckMeansIdle(s: State, t: nat)
    requires Inv(s) && (forall s' :: !BusyStep(s, s')) && t < |s.pcs|
    ensures s.pcs[t].Idle?
  {
    if !s.pcs[t].Idle? {
      var u, a, s' := Progress(s, t);
      assert BusyStep(s, s');
    }
  }
}
