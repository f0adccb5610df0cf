/**
  The life of an `AsyncResolver`
  (xrtc_server/thirdlib/rtcbase_v1/src/rtc_base/async_resolver.cc): detached lookup threads,
  what they post, and `Destroy` before, inside or after `SignalDone`. Everything but the
  lookups runs on one sequence; the state object behind the shared pointer outlives the resolver.
 */
module AsyncResolver {

  datatype Status = Live | Dead

  datatype Holder = Free | Lookup(i: nat) | Sequence

  /** A lookup thread: resolving, inside its locked section before and after the check, over. */
  datatype LookupPc = Resolving | Locked | Checked | Over

  /** What the sequence is doing. */
  datatype SequencePc =
    | Idle
    | TaskLock(task: nat)             // about to take the mutex of the state object
    | TaskRead(task: nat)             // holds it, about to read the status
    | TaskUnlock(task: nat, live: bool)
    | TaskDecide(task: nat, live: bool)
    | Signalling                      // inside `SignalDone`, client code runs
    | Signalled                       // back from it, about to call `MaybeSelfDestruct`
    | DtorLock                        // in the destructor, about to take the mutex
    | DtorMark                        // holds it
    | DtorUnlock                      // has marked the state dead

  datatype State = State(
    status: Status,
    mutex: Holder,
    destroyCalled: bool,
    recursionCheck: bool,
    deletions: nat,                   // how often the resolver has been deleted
    lookups: seq<LookupPc>,           // one per call of `Start`
    tasks: seq<nat>,                  // posted and not yet taken, by lookup
    pc: SequencePc,
    delivered: seq<nat>)              // the lookups `ResolveDone` has been called for

  datatype Action =
    | Start                           // from outside or from inside `SignalDone`
    | Destroy                         // likewise
    | ReturnFromSignal
    | SelfDestruct                    // `MaybeSelfDestruct` at the end of `ResolveDone`
    | LookupLock(i: nat)
    | LookupCheck(i: nat)             // posts if the resolver is live
    | LookupUnlock(i: nat)
    | Take
    | Acquire
    | Read
    | Release
    | Decide                          // runs `ResolveDone` up to `SignalDone` if live
    | DtorAcquire
    | DtorSetDead
    | DtorFinish

  const Initial := State(Live, Free, false, false, 0, [], [], Idle, [])

  predicate Deleted(s: State) {
    s.deletions > 0
  }

  /** Client code may use the resolver until it calls `Destroy`. */
  predicate ClientMayCall(s: State) {
    !s.destroyCalled && (s.pc.Idle? || s.pc.Signalling?)
  }

  predicate Enabled(s: State, a: Action) {
    match a
    case Start => ClientMayCall(s)
    case Destroy => ClientMayCall(s)
    case ReturnFromSignal => s.pc.Signalling?
    case SelfDestruct => s.pc.Signalled?
    case LookupLock(i) => i < |s.lookups| && s.lookups[i].Resolving? && s.mutex.Free?
    case LookupCheck(i) => i < |s.lookups| && s.lookups[i].Locked?
    case LookupUnlock(i) => i < |s.lookups| && s.lookups[i].Checked?
    case Take => s.pc.Idle? && s.tasks != []
    case Acquire => s.pc.TaskLock? && s.mutex.Free?
    case Read => s.pc.TaskRead?
    case Release => s.pc.TaskUnlock?
    case Decide => s.pc.TaskDecide?
    case DtorAcquire => s.pc.DtorLock? && s.mutex.Free?
    case DtorSetDead => s.pc.DtorMark?
    case DtorFinish => s.pc.DtorUnlock?
  }

  /** `MaybeSelfDestruct`; `back` is where the sequence goes on if nothing is deleted. */
  function MaybeSelfDestruct(s: State, back: SequencePc): State {
    if !s.recursionCheck then s.(pc := DtorLock) else s.(recursionCheck := false, pc := back)
  }

  function Step(s: State, a: Action): State
    requires Enabled(s, a)
  {
    match a
    case Start => s.(lookups := s.lookups + [Resolving])
    case Destroy => MaybeSelfDestruct(s.(destroyCalled := true), s.pc)
    case ReturnFromSignal => s.(pc := Signalled)
    case SelfDestruct => MaybeSelfDestruct(s, Idle)
    case LookupLock(i) => s.(mutex := Lookup(i), lookups := s.lookups[i := Locked])
    case LookupCheck(i) => s.(lookups := s.lookups[i := Checked], tasks := if s.status.Live? then s.tasks + [i] else s.tasks)
    case LookupUnlock(i) => s.(mutex := Free, lookups := s.lookups[i := Over])
    case Take => s.(pc := TaskLock(s.tasks[0]), tasks := s.tasks[1..])
    case Acquire => s.(pc := TaskRead(s.pc.task), mutex := Sequence)
    case Read => s.(pc := TaskUnlock(s.pc.task, s.status.Live?))
    case Release => s.(pc := TaskDecide(s.pc.task, s.pc.live), mutex := Free)
    case Decide =>
      if s.pc.live then s.(recursionCheck := true, pc := Signalling, delivered := s.delivered + [s.pc.task])
      else s.(pc := Idle)
    case DtorAcquire => s.(pc := DtorMark, mutex := Sequence)
    case DtorSetDead => s.(pc := DtorUnlock, status := Dead)
    case DtorFinish => s.(pc := Idle, mutex := Free, deletions := s.deletions + 1)
  }

  predicate Run(ss: seq<State>, acts: seq<Action>) {
    && |ss| == |acts| + 1 && ss[0] == Initial
    && forall k :: 0 <= k < |acts| ==> Enabled(ss[k], acts[k]) && ss[k + 1] == Step(ss[k], acts[k])
  }

  // The invariant.

  predicate InDtor(pc: SequencePc) {
    pc.DtorLock? || pc.DtorMark? || pc.DtorUnlock?
  }

  /** Inside `ResolveDone`. */
  predicate InResolveDone(pc: SequencePc) {
    pc.Signalling? || pc.Signalled?
  }

  predicate Lifetime(s: State) {
    && s.deletions <= 1
    && (Deleted(s) ==> s.destroyCalled)
    && (s.status.Dead? <==> Deleted(s) || s.pc.DtorUnlock?)
    && (s.destroyCalled && !Deleted(s) ==> InDtor(s.pc) || InResolveDone(s.pc))
    && (InDtor(s.pc) || InResolveDone(s.pc) ==> !Deleted(s))
    && (InDtor(s.pc) ==> s.destroyCalled && !s.recursionCheck)
    && (InResolveDone(s.pc) ==> s.recursionCheck == !s.destroyCalled)
    && (!InResolveDone(s.pc) ==> !s.recursionCheck)
    && (s.pc.TaskUnlock? || s.pc.TaskDecide? ==> s.pc.live == !Deleted(s))
  }

  predicate HoldsMutex(pc: SequencePc) {
    pc.TaskRead? || pc.TaskUnlock? || pc.DtorMark? || pc.DtorUnlock?
  }

  predicate Locking(s: State) {
    && (s.mutex.Sequence? <==> HoldsMutex(s.pc))
    && (forall i :: 0 <= i < |s.lookups| ==> (s.mutex == Lookup(i) <==> s.lookups[i].Locked? || s.lookups[i].Checked?))
    && (s.mutex.Lookup? ==> s.mutex.i < |s.lookups|)
  }

  /** What the sequence has taken and not yet decided about. */
  function Current(pc: SequencePc): seq<nat> {
    if pc.TaskLock? || pc.TaskRead? || pc.TaskUnlock? || pc.TaskDecide? then [pc.task] else []
  }

  /** Deliveries made, the one in hand and those to come, in order. */
  function Trail(s: State): seq<nat> {
    s.delivered + Current(s.pc) + s.tasks
  }

  predicate Past(s: State, i: nat) {
    i < |s.lookups| && (s.lookups[i].Checked? || s.lookups[i].Over?)
  }

  ghost predicate Deliveries(s: State) {
    && (forall i, j :: 0 <= i < j < |Trail(s)| ==> Trail(s)[i] != Trail(s)[j])
    && (forall t :: t in Trail(s) ==> Past(s, t))
    && (s.status.Live? ==> forall i :: Past(s, i) ==> i in Trail(s))
  }

  ghost predicate Inv(s: State) {
    Lifetime(s) && Locking(s) && Deliveries(s)
  }

  lemma StepLifetime(s: State, a: Action)
    requires Lifetime(s) && Locking(s) && Enabled(s, a)
    ensures Lifetime(Step(s, a))
  {
  }

  lemma StepLocking(s: State, a: Action)
    requires Locking(s) && Enabled(s, a)
    ensures Locking(Step(s, a))
  {
  }

  /** The actions that leave the trail and the lookups that are past their check alone. */
  lemma SameTrail(s: State, n: State)
    requires Deliveries(s) && Trail(n) == Trail(s) && (n.status.Live? ==> s.status.Live?)
    requires |s.lookups| <= |n.lookups| && forall i :: Past(n, i) <==> Past(s, i)
    ensures Deliveries(n)
  {
  }

  lemma StepCheck(s: State, i: nat)
    requires Deliveries(s) && Enabled(s, LookupCheck(i))
    ensures Deliveries(Step(s, LookupCheck(i)))
  {
    var n := Step(s, LookupCheck(i));
    assert i !in Trail(s) by { assert !Past(s, i); }
    assert forall j :: Past(n, j) <==> Past(s, j) || j == i;
    if s.status.Live? {
      assert Trail(n) == Trail(s) + [i];
    }
  }

  lemma StepDecide(s: State)
    requires Lifetime(s) && Deliveries(s) && Enabled(s, Decide)
    ensures Deliveries(Step(s, Decide))
  {
    var n := Step(s, Decide);
    if s.pc.live {
      assert Trail(n) == Trail(s);
      SameTrail(s, n);
    } else {
      var d := |s.delivered|;
      assert forall k :: 0 <= k < |Trail(n)| ==> Trail(n)[k] == Trail(s)[if k < d then k else k + 1];
      assert forall t :: t in Trail(n) ==> t in Trail(s);
      assert forall t :: Past(n, t) <==> Past(s, t);
    }
  }

  lemma StepDeliveries(s: State, a: Action)
    requires Inv(s) && Enabled(s, a)
    ensures Deliveries(Step(s, a))
  {
    assert Lifetime(s) && Deliveries(s);
    hide Deliveries, Lifetime, Locking, Step, Enabled;
    match a
    case LookupCheck(i) => StepCheck(s, i);
    case Decide => StepDecide(s);
    case Take => StepTake(s);
    case _ =>
      StepQuiet(s, a);
      SameTrail(s, Step(s, a));
  }

  lemma StepTake(s: State)
    requires Deliveries(s) && Enabled(s, Take)
    ensures Deliveries(Step(s, Take))
  {
    var n := Step(s, Take);
    assert Trail(n) == s.delivered + ([s.tasks[0]] + s.tasks[1..]) == Trail(s);
    SameTrail(s, n);
  }

  lemma StepQuiet(s: State, a: Action)
    requires Enabled(s, a) && !a.LookupCheck? && !a.Decide? && !a.Take?
    ensures var n := Step(s, a);
            && Trail(n) == Trail(s) && (n.status.Live? ==> s.status.Live?)
            && |s.lookups| <= |n.lookups| && forall i :: Past(n, i) <==> Past(s, i)
  {
    var n := Step(s, a);
    assert Current(n.pc) == Current(s.pc) && n.delivered == s.delivered && n.tasks == s.tasks;
  }

  lemma {:induction false} RunInv(ss: seq<State>, acts: seq<Action>, k: nat)
    requires Run(ss, acts) && k < |ss|
    ensures Inv(ss[k])
  {
    if k > 0 {
      RunInv(ss, acts, k - 1);
      StepLifetime(ss[k - 1], acts[k - 1]);
      StepLocking(ss[k - 1], acts[k - 1]);
      StepDeliveries(ss[k - 1], acts[k - 1]);
    }
  }

  // What it means for the client.

  /**
    The resolver is deleted at most once and only if `Destroy` was called; and whenever the
    sequence is between tasks, it has been deleted if and only if `Destroy` was called.
   */
  lemma DeletedExactlyOnce(ss: seq<State>, acts: seq<Action>, k: nat)
    requires Run(ss, acts) && k < |ss|
    ensures ss[k].deletions <= 1
    ensures ss[k].deletions == 1 ==> exists j :: 0 <= j < k && acts[j] == Destroy
    ensures ss[k].pc.Idle? ==> (ss[k].deletions == 1 <==> exists j :: 0 <= j < k && acts[j] == Destroy)
  {
    RunInv(ss, acts, k);
    CalledMeansCalled(ss, acts, k);
  }

  lemma {:induction false} CalledMeansCalled(ss: seq<State>, acts: seq<Action>, k: nat)
    requires Run(ss, acts) && k < |ss|
    ensures ss[k].destroyCalled <==> exists j :: 0 <= j < k && acts[j] == Destroy
  {
    if k > 0 {
      CalledMeansCalled(ss, acts, k - 1);
      assert ss[k].destroyCalled <==> ss[k - 1].destroyCalled || acts[k - 1] == Destroy;
    }
  }

  /** The actions that run a member function of the resolver. */
  predicate TouchesResolver(s: State, a: Action)
    requires Enabled(s, a)
  {
    || a.Start? || a.Destroy? || a.SelfDestruct? || a.DtorAcquire? || a.DtorSetDead? || a.DtorFinish?
    || (a.Decide? && s.pc.live)
  }

  /** No member function, `ResolveDone` among them, ever runs on a deleted resolver. */
  lemma NeverOnDeleted(ss: seq<State>, acts: seq<Action>, k: nat)
    requires Run(ss, acts) && k < |acts| && TouchesResolver(ss[k], acts[k])
    ensures ss[k].deletions == 0
  {
    RunInv(ss, acts, k);
  }

  /** A lookup is delivered at most once; while `Destroy` has not been called none is lost. */
  lemma DeliveredOnce(ss: seq<State>, acts: seq<Action>, k: nat)
    requires Run(ss, acts) && k < |ss|
    ensures forall i, j :: 0 <= i < j < |ss[k].delivered| ==> ss[k].delivered[i] != ss[k].delivered[j]
    ensures forall i :: i in ss[k].delivered ==> i < |ss[k].lookups| && (ss[k].lookups[i].Checked? || ss[k].lookups[i].Over?)
    ensures !ss[k].destroyCalled && ss[k].pc.Idle? && ss[k].tasks == [] ==>
              forall i :: 0 <= i < |ss[k].lookups| && ss[k].lookups[i].Over? ==> i in ss[k].delivered
  {
    RunInv(ss, acts, k);
    var s := ss[k];
    assert forall i :: 0 <= i < |s.delivered| ==> Trail(s)[i] == s.delivered[i];
    assert forall i :: i in s.delivered ==> i in Trail(s);
    if !s.destroyCalled && s.pc.Idle? && s.tasks == [] {
      assert Trail(s) == s.delivered;
      assert forall i :: 0 <= i < |s.lookups| && s.lookups[i].Over? ==> Past(s, i);
    }
  }

  /** What still has to happen before a resolver on which `Destroy` was called is gone. */
  function Left(s: State): nat {
    (match s.pc
     case Signalling => 7
     case Signalled => 6
     case DtorLock => 5
     case DtorMark => 2
     case DtorUnlock => 1
     case _ => 0)
    - (if s.pc.DtorLock? && s.mutex.Free? then 2 else 0)
    - (if s.pc.DtorLock? && s.mutex.Lookup? && s.mutex.i < |s.lookups| && s.lookups[s.mutex.i].Checked? then 1 else 0)
  }

  predicate Legal(s: State, acts: seq<Action>)
    decreases |acts|
  {
    acts == [] || (Enabled(s, acts[0]) && Legal(Step(s, acts[0]), acts[1..]))
  }

  function After(s: State, acts: seq<Action>): State
    requires Legal(s, acts)
    decreases |acts|
  {
    if acts == [] then s else After(Step(s, acts[0]), acts[1..])
  }

  /** The step that brings the deletion closer: the lock holder's, if the destructor has to wait. */
  function Next(s: State): Action {
    match s.pc
    case Signalling => ReturnFromSignal
    case Signalled => SelfDestruct
    case DtorMark => DtorSetDead
    case DtorUnlock => DtorFinish
    case _ =>
      if s.mutex.Lookup? && s.mutex.i < |s.lookups| && s.lookups[s.mutex.i].Locked? then LookupCheck(s.mutex.i)
      else if s.mutex.Lookup? then LookupUnlock(s.mutex.i)
      else DtorAcquire
  }

  /** The destructor cannot deadlock: from every state after `Destroy` the deletion is seven steps away at most. */
  lemma {:induction false} DestroyCompletes(s: State) returns (acts: seq<Action>)
    requires Inv(s) && s.destroyCalled
    ensures |acts| <= Left(s) && Left(s) <= 7 && Legal(s, acts) && After(s, acts).deletions == 1
    decreases Left(s)
  {
    if Deleted(s) {
      acts := [];
    } else {
      var a := Next(s);
      assert Enabled(s, a);
      StepLifetime(s, a);
      StepLocking(s, a);
      StepDeliveries(s, a);
      var rest := DestroyCompletes(Step(s, a));
      acts := [a] + rest;
    }
  }
}
