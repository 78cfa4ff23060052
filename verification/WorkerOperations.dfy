/**
 * The worker thread and its callers as one state machine.  Callers queue operations under a lock,
 * signal a wake event and wait; the worker pops, dispatches, parks polls, and sleeps on the event.
 * Every lock scope and every event call is a step of its own, and steps interleave freely.
 */
module WorkerOperations {
  import opened Counting

  const CAPACITY: nat := 4

  /** Where the worker stands. */
  datatype Pc =
    | Top
    | FirstControl
    | FirstPolls
    | LoopControl
    | Busy
    | Dispatching(op: nat)
    | Settling
    | BeforeWait
    | WakeCleared
    | QueueChecked
    | Waiting
    | StopSeen
    | Stopping(rest: seq<nat>)
    | StoppingPolls
    | Done

  /**
   * Admitted operations are numbered; `signals` counts the completion signals of each, and `announced`
   * holds those whose caller is past the wake signal.  Control requests are numbered too: `control` holds
   * those made since the worker last took the control flags, and `announcedControl` those past the
   * wake signal.
   */
  datatype State = State(
    queue: seq<nat>, polls: seq<nat>, signals: seq<nat>, announced: set<nat>, pc: Pc,
    wake: bool, stopRequested: bool, stopEvent: bool, stopAnnounced: bool,
    control: set<nat>, requests: nat, announcedControl: set<nat>)

  function Initial(): State {
    State([], [], [], {}, Top, false, false, false, false, {}, 0, {})
  }

  function Signalled(s: State, op: nat): State
    requires op < |s.signals|
  {
    s.(signals := s.signals[op := s.signals[op] + 1])
  }

  function SignalAll(s: State, ops: seq<nat>): (r: State)
    ensures |r.signals| == |s.signals|
    decreases |ops|
  {
    if ops == [] then s
    else SignalAll(if ops[0] < |s.signals| then Signalled(s, ops[0]) else s, ops[1..])
  }

  /** The polls that stay parked, and those that are completed. */
  function Kept(polls: seq<nat>, keep: seq<bool>): seq<nat>
    requires |polls| == |keep|
  {
    if polls == [] then []
    else
      var n := |polls| - 1;
      Kept(polls[..n], keep[..n]) + (if keep[n] then [polls[n]] else [])
  }

  function Completed(polls: seq<nat>, keep: seq<bool>): seq<nat>
    requires |polls| == |keep|
  {
    if polls == [] then []
    else
      var n := |polls| - 1;
      Completed(polls[..n], keep[..n]) + (if keep[n] then [] else [polls[n]])
  }

  function CompletePolls(s: State, keep: seq<bool>): State
    requires |keep| == |s.polls|
  {
    SignalAll(s, Completed(s.polls, keep)).(polls := Kept(s.polls, keep))
  }

  datatype Action =
    | Enqueue
    | Announce(op: nat)
    | RequestStop
    | AnnounceStop
    | RequestControl
    | AnnounceControl(request: nat)
    | WorkerTop
    | WorkerControl
    | WorkerPolls(keep: seq<bool>)
    | WorkerPop
    | WorkerDispatch(parks: bool)
    | WorkerSettle(keep: seq<bool>)
    | WorkerClearWake
    | WorkerCheckQueue
    | WorkerCheckControl
    | WorkerWake(elsewhere: bool)
    | WorkerTakeAll
    | WorkerStopSignal

  /** Whether the worker may leave its wait; `elsewhere` stands for completions and timeouts. */
  predicate Awake(s: State, elsewhere: bool) {
    s.wake || s.stopEvent || elsewhere
  }

  function CallerStep(s: State, a: Action): State {
    match a
    case Enqueue =>
      if s.stopRequested || |s.queue| >= CAPACITY then s
      else s.(queue := s.queue + [|s.signals|], signals := s.signals + [0])
    case Announce(op) => if op < |s.signals| then s.(wake := true, announced := s.announced + {op}) else s
    case RequestStop => s.(stopRequested := true)
    case AnnounceStop => if s.stopRequested then s.(stopEvent := true, stopAnnounced := true, wake := true) else s
    case RequestControl => s.(control := s.control + {s.requests}, requests := s.requests + 1)
    case AnnounceControl(request) =>
      if request < s.requests then s.(wake := true, announcedControl := s.announcedControl + {request}) else s
    case _ => s
  }

  /** The worker between two sleeps: controls, polls and operations. */
  function LoopStep(s: State, a: Action): State {
    match a
    case WorkerTop => if s.pc != Top then s else s.(pc := if s.stopRequested then StopSeen else FirstControl)
    case WorkerControl =>
      if s.pc == FirstControl then s.(control := {}, pc := FirstPolls)
      else if s.pc == LoopControl then s.(control := {}, pc := Busy)
      else s
    case WorkerPolls(keep) =>
      if s.pc != FirstPolls || |keep| != |s.polls| then s else CompletePolls(s, keep).(pc := LoopControl)
    case WorkerPop =>
      if s.pc != Busy then s
      else if s.queue == [] then s.(pc := Settling)
      else s.(queue := s.queue[1..], pc := Dispatching(s.queue[0]))
    case WorkerDispatch(parks) =>
      if !s.pc.Dispatching? || s.pc.op >= |s.signals| then s
      else if parks && |s.polls| < CAPACITY then s.(polls := s.polls + [s.pc.op], pc := LoopControl)
      else Signalled(s, s.pc.op).(pc := LoopControl)
    case WorkerSettle(keep) =>
      if s.pc != Settling || |keep| != |s.polls| then s else CompletePolls(s, keep).(pc := BeforeWait)
    case _ => s
  }

  /** Going to sleep: the event is cleared first, then queue and controls are looked at once more. */
  function SleepStep(s: State, a: Action): State {
    match a
    case WorkerClearWake => if s.pc != BeforeWait then s else s.(wake := false, pc := WakeCleared)
    case WorkerCheckQueue => if s.pc != WakeCleared then s else s.(pc := if s.queue != [] then Top else QueueChecked)
    case WorkerCheckControl => if s.pc != QueueChecked then s else s.(pc := if s.control != {} then Top else Waiting)
    case WorkerWake(elsewhere) => if s.pc != Waiting || !Awake(s, elsewhere) then s else s.(pc := Top)
    case _ => s
  }

  /** Stopping: everything queued is taken at once and signalled one by one, then the parked polls. */
  function StopStep(s: State, a: Action): State {
    match a
    case WorkerTakeAll => if s.pc != StopSeen then s else s.(queue := [], pc := Stopping(s.queue))
    case WorkerStopSignal =>
      if s.pc == StoppingPolls then SignalAll(s, s.polls).(polls := [], pc := Done)
      else if !s.pc.Stopping? then s
      else if s.pc.rest == [] then s.(pc := StoppingPolls)
      else if s.pc.rest[0] >= |s.signals| then s
      else Signalled(s, s.pc.rest[0]).(pc := Stopping(s.pc.rest[1..]))
    case _ => s
  }

  /** At most one of the parts moves. */
  function WorkerStep(s: State, a: Action): State {
    StopStep(SleepStep(LoopStep(s, a), a), a)
  }

  function Step(s: State, a: Action): State {
    WorkerStep(CallerStep(s, a), a)
  }

  function Run(s: State, actions: seq<Action>): State
    decreases |actions|
  {
    if actions == [] then s else Run(Step(s, actions[0]), actions[1..])
  }

  // ---------------------------------------------------------------------------------------------
  // References

  function Is(op: nat): nat -> bool {
    (x: nat) => x == op
  }

  function InHand(pc: Pc, op: nat): nat {
    match pc
    case Dispatching(held) => Tally(held == op)
    case Stopping(rest) => Count(rest, Is(op))
    case _ => 0
  }

  /** How often the worker's tables and locals name an operation. */
  function References(s: State, op: nat): nat {
    Count(s.queue, Is(op)) + Count(s.polls, Is(op)) + InHand(s.pc, op)
  }

  /** An operation is named once until it is signalled, and never afterwards. */
  ghost predicate Accounted(s: State) {
    forall op :: 0 <= op < |s.signals| ==> References(s, op) + s.signals[op] == 1
  }

  predicate Known(ops: seq<nat>, bound: nat) {
    forall i :: 0 <= i < |ops| ==> ops[i] < bound
  }

  predicate PcKnown(pc: Pc, bound: nat) {
    (pc.Dispatching? ==> pc.op < bound) && (pc.Stopping? ==> Known(pc.rest, bound))
  }

  predicate StopOk(s: State) {
    (s.pc.StopSeen? || s.pc.Stopping? || s.pc.StoppingPolls? || s.pc.Done? ==> s.stopRequested) &&
    (s.pc.Stopping? || s.pc.StoppingPolls? || s.pc.Done? ==> s.queue == []) &&
    (s.pc.Done? ==> s.polls == []) && (s.stopAnnounced ==> s.stopEvent && s.stopRequested)
  }

  /** Asleep, or about to be, the worker has a wake signal for everything already announced. */
  predicate WakeOk(s: State) {
    (s.pc.QueueChecked? || s.pc.Waiting? ==> forall i :: 0 <= i < |s.queue| && s.queue[i] in s.announced ==> s.wake) &&
    (s.pc.Waiting? ==> forall r :: r in s.control && r in s.announcedControl ==> s.wake) &&
    (forall r :: r in s.announcedControl ==> r < s.requests)
  }

  ghost predicate Ok(s: State) {
    Accounted(s) && Known(s.queue, |s.signals|) && Known(s.polls, |s.signals|) && PcKnown(s.pc, |s.signals|) &&
    |s.queue| <= CAPACITY && |s.polls| <= CAPACITY && (forall op :: op in s.announced ==> op < |s.signals|) &&
    StopOk(s) && WakeOk(s)
  }

  // ---------------------------------------------------------------------------------------------
  // Preservation

  lemma {:induction false} UnknownUncounted(ops: seq<nat>, bound: nat, op: nat)
    requires Known(ops, bound) && op >= bound
    ensures Count(ops, Is(op)) == 0
  {
    if ops != [] {
      assert ops[0] < bound;
      assert Known(ops[1..], bound) by {
        forall i | 0 <= i < |ops[1..]| ensures ops[1..][i] < bound {
          assert ops[1..][i] == ops[i + 1];
        }
      }
      UnknownUncounted(ops[1..], bound, op);
    }
  }

  lemma EnqueueOk(s: State)
    requires Ok(s)
    ensures Ok(CallerStep(s, Enqueue))
  {
    var q := CallerStep(s, Enqueue);
    if q != s {
      var number: nat := |s.signals|;
      forall op | 0 <= op < |q.signals| ensures References(q, op) + q.signals[op] == 1 {
        CountSnoc(s.queue, number, Is(op));
        if op == number {
          UnknownUncounted(s.queue, number, op);
          UnknownUncounted(s.polls, number, op);
          InHandUnknown(s.pc, number, op);
        }
      }
    }
  }

  lemma InHandUnknown(pc: Pc, bound: nat, op: nat)
    requires PcKnown(pc, bound) && op >= bound
    ensures InHand(pc, op) == 0
  {
    if pc.Stopping? {
      UnknownUncounted(pc.rest, bound, op);
    }
  }

  lemma CallerOk(s: State, a: Action)
    requires Ok(s)
    ensures Ok(CallerStep(s, a))
  {
    if a.Enqueue? {
      EnqueueOk(s);
    } else {
      assert forall op :: 0 <= op < |s.signals| ==> References(CallerStep(s, a), op) == References(s, op);
    }
  }

  lemma {:induction false} SignalAllCounts(s: State, ops: seq<nat>, op: nat)
    requires op < |s.signals| && Known(ops, |s.signals|)
    ensures SignalAll(s, ops) == s.(signals := SignalAll(s, ops).signals)
    ensures SignalAll(s, ops).signals[op] == s.signals[op] + Count(ops, Is(op))
    decreases |ops|
  {
    if ops != [] {
      assert ops[0] < |s.signals|;
      assert forall i :: 0 <= i < |ops[1..]| ==> ops[1..][i] == ops[i + 1];
      SignalAllCounts(Signalled(s, ops[0]), ops[1..], op);
    }
  }

  lemma {:induction false} SplitCounts(polls: seq<nat>, keep: seq<bool>, op: nat, bound: nat)
    requires |polls| == |keep| && Known(polls, bound)
    ensures Count(polls, Is(op)) == Count(Kept(polls, keep), Is(op)) + Count(Completed(polls, keep), Is(op))
    ensures Known(Kept(polls, keep), bound) && Known(Completed(polls, keep), bound) && |Kept(polls, keep)| <= |polls|
  {
    if polls != [] {
      var n := |polls| - 1;
      var front, marks := polls[..n], keep[..n];
      assert polls == front + [polls[n]];
      SplitCounts(front, marks, op, bound);
      CountAppend(front, [polls[n]], Is(op));
      CountAppend(Kept(front, marks), if keep[n] then [polls[n]] else [], Is(op));
      CountAppend(Completed(front, marks), if keep[n] then [] else [polls[n]], Is(op));
    }
  }

  lemma CompletePollsOk(s: State, keep: seq<bool>)
    requires Ok(s) && |keep| == |s.polls|
    ensures Ok(CompletePolls(s, keep))
  {
    var q := CompletePolls(s, keep);
    SplitCounts(s.polls, keep, 0, |s.signals|);
    SignalAllFrame(s, Completed(s.polls, keep));
    forall op | 0 <= op < |s.signals| ensures References(q, op) + q.signals[op] == 1 {
      SplitCounts(s.polls, keep, op, |s.signals|);
      SignalAllCounts(s, Completed(s.polls, keep), op);
    }
  }

  lemma {:induction false} SignalAllFrame(s: State, ops: seq<nat>)
    ensures SignalAll(s, ops) == s.(signals := SignalAll(s, ops).signals)
    decreases |ops|
  {
    if ops != [] {
      SignalAllFrame(if ops[0] < |s.signals| then Signalled(s, ops[0]) else s, ops[1..]);
    }
  }

  /** Steps that only move the worker on. */
  lemma MoveOk(s: State, q: State)
    requires Ok(s) && q == s.(pc := q.pc, wake := q.wake, control := q.control)
    requires InHandless(s.pc) && InHandless(q.pc) && StopOk(q) && WakeOk(q)
    ensures Ok(q)
  {
    assert forall op :: 0 <= op < |s.signals| ==> References(q, op) == References(s, op);
  }

  predicate InHandless(pc: Pc) {
    !pc.Dispatching? && !pc.Stopping?
  }

  lemma PopOk(s: State)
    requires Ok(s) && s.pc == Busy && s.queue != []
    ensures Ok(s.(queue := s.queue[1..], pc := Dispatching(s.queue[0])))
  {
    var q := s.(queue := s.queue[1..], pc := Dispatching(s.queue[0]));
    assert forall op :: 0 <= op < |s.signals| ==> References(q, op) == References(s, op);
    assert forall i :: 0 <= i < |q.queue| ==> q.queue[i] == s.queue[i + 1];
  }

  lemma ParkOk(s: State)
    requires Ok(s) && s.pc.Dispatching? && |s.polls| < CAPACITY
    ensures Ok(s.(polls := s.polls + [s.pc.op], pc := LoopControl))
  {
    hide Count;
    var q := s.(polls := s.polls + [s.pc.op], pc := LoopControl);
    forall o | 0 <= o < |s.signals| ensures References(q, o) + q.signals[o] == 1 {
      assert References(s, o) + s.signals[o] == 1;
      CountSnoc(s.polls, s.pc.op, Is(o));
    }
  }

  lemma AnswerOk(s: State)
    requires Ok(s) && s.pc.Dispatching?
    ensures s.pc.op < |s.signals| && Ok(Signalled(s, s.pc.op).(pc := LoopControl))
  {
    hide Count;
    var q := Signalled(s, s.pc.op).(pc := LoopControl);
    forall o | 0 <= o < |s.signals| ensures References(q, o) + q.signals[o] == 1 {
      assert References(s, o) + s.signals[o] == 1;
    }
  }

  lemma TakeAllOk(s: State)
    requires Ok(s) && s.pc == StopSeen
    ensures Ok(s.(queue := [], pc := Stopping(s.queue)))
  {
    var q := s.(queue := [], pc := Stopping(s.queue));
    assert forall op :: 0 <= op < |s.signals| ==> References(q, op) == References(s, op);
  }

  lemma StopSignalOk(s: State)
    requires Ok(s) && s.pc.Stopping? && s.pc.rest != []
    ensures Ok(Signalled(s, s.pc.rest[0]).(pc := Stopping(s.pc.rest[1..])))
  {
    var rest := s.pc.rest;
    var q := Signalled(s, rest[0]).(pc := Stopping(rest[1..]));
    assert forall i :: 0 <= i < |rest[1..]| ==> rest[1..][i] == rest[i + 1];
    forall o | 0 <= o < |s.signals| ensures References(q, o) + q.signals[o] == 1 {
      assert References(s, o) + s.signals[o] == 1;
    }
  }

  lemma StopPollsOk(s: State)
    requires Ok(s) && s.pc == StoppingPolls
    ensures Ok(SignalAll(s, s.polls).(polls := [], pc := Done))
  {
    var q := SignalAll(s, s.polls).(polls := [], pc := Done);
    SignalAllFrame(s, s.polls);
    forall o | 0 <= o < |s.signals| ensures References(q, o) + q.signals[o] == 1 {
      assert References(s, o) + s.signals[o] == 1;
      SignalAllCounts(s, s.polls, o);
    }
  }

  lemma LoopOk(s: State, a: Action)
    requires Ok(s)
    ensures Ok(LoopStep(s, a))
  {
    assert StopOk(s) && WakeOk(s);
    hide Ok, SignalAll, CompletePolls, Signalled, StopOk, WakeOk;
    match a
    case WorkerTop =>
      if s.pc == Top {
        TopOk(s);
      }
    case WorkerControl =>
      if s.pc == FirstControl || s.pc == LoopControl {
        ControlOk(s, if s.pc == FirstControl then FirstPolls else Busy);
      }
    case WorkerPolls(keep) => PollsOk(s, keep, FirstPolls, LoopControl);
    case WorkerPop =>
      if s.pc == Busy {
        if s.queue == [] {
          SettleOk(s);
        } else {
          PopOk(s);
        }
      }
    case WorkerDispatch(parks) =>
      if s.pc.Dispatching? {
        AnswerOk(s);
        if |s.polls| < CAPACITY {
          ParkOk(s);
        }
      }
    case WorkerSettle(keep) => PollsOk(s, keep, Settling, BeforeWait);
    case _ =>
  }

  lemma TopOk(s: State)
    requires Ok(s) && s.pc == Top
    ensures Ok(s.(pc := if s.stopRequested then StopSeen else FirstControl))
  {
    assert StopOk(s) && WakeOk(s);
    hide Ok;
    MoveOk(s, s.(pc := if s.stopRequested then StopSeen else FirstControl));
  }

  lemma ControlOk(s: State, to: Pc)
    requires Ok(s) && (s.pc == FirstControl || s.pc == LoopControl) && (to == FirstPolls || to == Busy)
    ensures Ok(s.(control := {}, pc := to))
  {
    assert StopOk(s) && WakeOk(s);
    hide Ok;
    MoveOk(s, s.(control := {}, pc := to));
  }

  lemma SettleOk(s: State)
    requires Ok(s) && s.pc == Busy
    ensures Ok(s.(pc := Settling))
  {
    assert StopOk(s) && WakeOk(s);
    hide Ok;
    MoveOk(s, s.(pc := Settling));
  }

  lemma SleepOk(s: State, a: Action)
    requires Ok(s)
    ensures Ok(SleepStep(s, a))
  {
    assert StopOk(s) && WakeOk(s);
    hide Ok;
    var q := SleepStep(s, a);
    if q != s {
      MoveOk(s, q);
    }
  }

  lemma StoppedOk(s: State, a: Action)
    requires Ok(s)
    ensures Ok(StopStep(s, a))
  {
    hide Ok, SignalAll, Signalled;
    if a.WorkerTakeAll? && s.pc == StopSeen {
      TakeAllOk(s);
    } else if a.WorkerStopSignal? && s.pc == StoppingPolls {
      StopPollsOk(s);
    } else if a.WorkerStopSignal? && s.pc.Stopping? {
      StopStepOk(s);
    }
  }

  lemma WorkerOk(s: State, a: Action)
    requires Ok(s)
    ensures Ok(WorkerStep(s, a))
  {
    hide Ok, LoopStep, SleepStep, StopStep;
    LoopOk(s, a);
    SleepOk(LoopStep(s, a), a);
    StoppedOk(SleepStep(LoopStep(s, a), a), a);
  }

  lemma PollsOk(s: State, keep: seq<bool>, at: Pc, to: Pc)
    requires Ok(s) && (at == FirstPolls || at == Settling) && (to == LoopControl || to == BeforeWait)
    ensures s.pc == at && |keep| == |s.polls| ==> Ok(CompletePolls(s, keep).(pc := to))
  {
    assert StopOk(s) && WakeOk(s);
    hide Ok, SignalAll, CompletePolls;
    if s.pc == at && |keep| == |s.polls| {
      CompletePollsOk(s, keep);
      PolledFrame(s, keep);
      MoveOk(CompletePolls(s, keep), CompletePolls(s, keep).(pc := to));
    }
  }

  lemma StopStepOk(s: State)
    requires Ok(s) && s.pc.Stopping?
    ensures Ok(StopStep(s, WorkerStopSignal))
  {
    if s.pc.rest == [] {
      assert forall op :: 0 <= op < |s.signals| ==> References(s.(pc := StoppingPolls), op) == References(s, op);
    } else if s.pc.rest[0] < |s.signals| {
      StopSignalOk(s);
    }
  }

  lemma PolledFrame(s: State, keep: seq<bool>)
    requires |keep| == |s.polls|
    ensures CompletePolls(s, keep) == s.(polls := CompletePolls(s, keep).polls, signals := CompletePolls(s, keep).signals)
    ensures |CompletePolls(s, keep).signals| == |s.signals|
  {
    SignalAllFrame(s, Completed(s.polls, keep));
  }

  lemma StepOk(s: State, a: Action)
    requires Ok(s)
    ensures Ok(Step(s, a))
  {
    CallerOk(s, a);
    WorkerOk(CallerStep(s, a), a);
  }

  lemma {:induction false} RunOk(s: State, actions: seq<Action>)
    requires Ok(s)
    ensures Ok(Run(s, actions))
    decreases |actions|
  {
    if actions != [] {
      StepOk(s, actions[0]);
      RunOk(Step(s, actions[0]), actions[1..]);
    }
  }

  // ---------------------------------------------------------------------------------------------
  // Results

  /**
   * For any interleaving, an admitted operation is signalled at most once, is held by the worker exactly
   * once until then, and is never referenced afterwards.
   */
  lemma SignalledExactlyOnce(actions: seq<Action>, op: nat)
    requires op < |Run(Initial(), actions).signals|
    ensures var s := Run(Initial(), actions);
            (s.signals[op] == 0 && References(s, op) == 1) || (s.signals[op] == 1 && References(s, op) == 0)
  {
    RunOk(Initial(), actions);
  }

  /** Once the worker has stopped, every admitted operation was signalled and none remains. */
  lemma NoneLeftAfterStop(actions: seq<Action>, op: nat)
    requires Run(Initial(), actions).pc == Done && op < |Run(Initial(), actions).signals|
    ensures var s := Run(Initial(), actions); s.signals[op] == 1 && s.queue == [] && s.polls == []
  {
    RunOk(Initial(), actions);
    var s := Run(Initial(), actions);
    assert References(s, op) + s.signals[op] == 1;
  }

  /** After a stop was requested nothing is admitted any more. */
  lemma NothingAdmittedAfterStop(s: State, a: Action)
    requires s.stopRequested
    ensures |Step(s, a).signals| == |s.signals| && Step(s, a).stopRequested
  {
    hide CallerStep, LoopStep, SleepStep, StopStep;
    CallerAdmitsNothing(s, a);
    var c := CallerStep(s, a);
    LoopAdmitsNothing(c, a);
    SleepAdmitsNothing(LoopStep(c, a), a);
    StopAdmitsNothing(SleepStep(LoopStep(c, a), a), a);
  }

  lemma LoopAdmitsNothing(s: State, a: Action)
    ensures |LoopStep(s, a).signals| == |s.signals| && LoopStep(s, a).stopRequested == s.stopRequested
  {
    hide SignalAll, CompletePolls;
    if (a.WorkerPolls? || a.WorkerSettle?) && |a.keep| == |s.polls| {
      PolledFrame(s, a.keep);
    }
  }

  lemma SleepAdmitsNothing(s: State, a: Action)
    ensures |SleepStep(s, a).signals| == |s.signals| && SleepStep(s, a).stopRequested == s.stopRequested
  {
  }

  lemma StopAdmitsNothing(s: State, a: Action)
    ensures |StopStep(s, a).signals| == |s.signals| && StopStep(s, a).stopRequested == s.stopRequested
  {
    hide SignalAll;
    SignalAllFrame(s, s.polls);
  }

  lemma CallerAdmitsNothing(s: State, a: Action)
    requires s.stopRequested
    ensures |CallerStep(s, a).signals| == |s.signals| && CallerStep(s, a).stopRequested
  {
  }

  /**
   * No lost wake-up: the worker never waits unsignalled with an operation queued whose caller is past
   * the wake signal, with a control request that is not yet taken and past its signal, or with a stop
   * past its signal.
   */
  lemma NoLostWakeup(actions: seq<Action>)
    ensures var s := Run(Initial(), actions);
            s.pc == Waiting && ((exists i :: 0 <= i < |s.queue| && s.queue[i] in s.announced) ||
                                (exists r :: r in s.control && r in s.announcedControl) || s.stopAnnounced)
            ==> Awake(s, false)
  {
    RunOk(Initial(), actions);
  }

  // ---------------------------------------------------------------------------------------------
  // The tables as they are stored

  class OperationTables {
    const operations: array<nat>
    var operationCount: nat
    const pendingPolls: array<nat>
    var pendingPollCount: nat

    ghost predicate Valid()
      reads this
    {
      operations.Length == CAPACITY && pendingPolls.Length == CAPACITY && operations != pendingPolls &&
      operationCount <= CAPACITY && pendingPollCount <= CAPACITY
    }

    ghost function Queue(): seq<nat>
      requires Valid()
      reads this, operations
    {
      operations[..operationCount]
    }

    ghost function Polls(): seq<nat>
      requires Valid()
      reads this, pendingPolls
    {
      pendingPolls[..pendingPollCount]
    }

    constructor ()
      ensures Valid() && Queue() == [] && Polls() == []
    {
      operations := new nat[CAPACITY](_ => 0);
      pendingPolls := new nat[CAPACITY](_ => 0);
      operationCount, pendingPollCount := 0, 0;
    }

    method Admit(op: nat) returns (admitted: bool)
      requires Valid()
      modifies this, operations
      ensures Valid() && Polls() == old(Polls()) && admitted == (|old(Queue())| < CAPACITY)
      ensures Queue() == if admitted then old(Queue()) + [op] else old(Queue())
    {
      if operationCount == CAPACITY {
        return false;
      }
      operations[operationCount] := op;
      operationCount := operationCount + 1;
      return true;
    }

    /** Takes the oldest operation and moves the others up. */
    method Pop() returns (op: nat)
      requires Valid() && Queue() != []
      modifies this, operations
      ensures Valid() && Polls() == old(Polls()) && op == old(Queue())[0] && Queue() == old(Queue())[1..]
    {
      op := operations[0];
      for index := 1 to operationCount
        invariant forall j :: 0 <= j < index - 1 ==> operations[j] == old(operations[j + 1])
        invariant forall j :: index - 1 <= j < CAPACITY ==> operations[j] == old(operations[j])
        modifies operations
      {
        operations[index - 1] := operations[index];
      }
      operationCount := operationCount - 1;
    }

    method Park(op: nat) returns (parked: bool)
      requires Valid()
      modifies this, pendingPolls
      ensures Valid() && Queue() == old(Queue()) && parked == (|old(Polls())| < CAPACITY)
      ensures Polls() == if parked then old(Polls()) + [op] else old(Polls())
    {
      if pendingPollCount == CAPACITY {
        return false;
      }
      pendingPolls[pendingPollCount] := op;
      pendingPollCount := pendingPollCount + 1;
      return true;
    }

    /** Completes the polls that are ready and moves the others down over them. */
    method CompletePending(keep: seq<bool>) returns (completed: seq<nat>)
      requires Valid() && |keep| == pendingPollCount
      modifies this, pendingPolls
      ensures Valid() && Queue() == old(Queue())
      ensures Polls() == Kept(old(Polls()), keep) && completed == Completed(old(Polls()), keep)
    {
      hide Kept, Completed;
      ghost var polls := Polls();
      var retained := 0;
      completed := [];
      NothingPolled(polls, keep);
      for index := 0 to pendingPollCount
        invariant retained <= index
        invariant pendingPolls[..retained] == Kept(polls[..index], keep[..index])
        invariant completed == Completed(polls[..index], keep[..index])
        invariant forall j :: index <= j < |polls| ==> pendingPolls[j] == polls[j]
        modifies pendingPolls
      {
        var op := pendingPolls[index];
        PollAdded(polls, keep, index);
        ghost var before := pendingPolls[..retained];
        if keep[index] {
          pendingPolls[retained] := op;
          retained := retained + 1;
          assert pendingPolls[..retained] == before + [op];
        } else {
          completed := completed + [op];
        }
      }
      assert polls[..|polls|] == polls && keep[..|keep|] == keep;
      pendingPollCount := retained;
    }
  }

  lemma KeptSnoc(polls: seq<nat>, keep: seq<bool>, op: nat, kept: bool)
    requires |polls| == |keep|
    ensures Kept(polls + [op], keep + [kept]) == Kept(polls, keep) + (if kept then [op] else [])
  {
    assert (polls + [op])[..|polls|] == polls && (keep + [kept])[..|keep|] == keep;
  }

  lemma CompletedSnoc(polls: seq<nat>, keep: seq<bool>, op: nat, kept: bool)
    requires |polls| == |keep|
    ensures Completed(polls + [op], keep + [kept]) == Completed(polls, keep) + (if kept then [] else [op])
  {
    assert (polls + [op])[..|polls|] == polls && (keep + [kept])[..|keep|] == keep;
  }

  lemma PollAdded(polls: seq<nat>, keep: seq<bool>, index: nat)
    requires |polls| == |keep| && index < |polls|
    ensures Kept(polls[..index + 1], keep[..index + 1]) ==
            Kept(polls[..index], keep[..index]) + (if keep[index] then [polls[index]] else [])
    ensures Completed(polls[..index + 1], keep[..index + 1]) ==
            Completed(polls[..index], keep[..index]) + (if keep[index] then [] else [polls[index]])
    ensures keep[index] ==> Completed(polls[..index + 1], keep[..index + 1]) == Completed(polls[..index], keep[..index])
    ensures !keep[index] ==> Kept(polls[..index + 1], keep[..index + 1]) == Kept(polls[..index], keep[..index])
  {
    hide Kept, Completed;
    assert polls[..index + 1] == polls[..index] + [polls[index]] && keep[..index + 1] == keep[..index] + [keep[index]];
    KeptSnoc(polls[..index], keep[..index], polls[index], keep[index]);
    CompletedSnoc(polls[..index], keep[..index], polls[index], keep[index]);
  }

  lemma NothingPolled(polls: seq<nat>, keep: seq<bool>)
    ensures Kept(polls[..0], keep[..0]) == [] && Completed(polls[..0], keep[..0]) == []
  {
  }
}
