/** One job under cancellation. */
module JobLifecycle {
  // API callers, the queue, the worker's attempts and the cancellation monitor of each attempt, as a transition
  // system over their interleaved steps.
  import opened Text

  // ---------------------------------------------------------------- one attempt

  /** `startCancellationMonitor`: `outstanding` counts the flag queries sent and not yet answered. */
  datatype Monitor = Monitor(stopped: bool, inFlight: bool, outstanding: nat, served: Option<bool>)

  datatype Outcome =
    | Finished
    | Canceled                  // UnrecoverableError("canceled")
    | Failure(reason: string)   // any other error

  datatype Phase =
    | Loading                   // pipeline modules are being loaded, no controller yet
    | Extracting
    | Formatting
    | Ending(outcome: Outcome)  // the finally block
    | Over(outcome: Outcome)    // the queue has recorded the outcome

  datatype Attempt = Attempt(phase: Phase, aborted: bool, monitor: Monitor)

  const NewAttempt := Attempt(Loading, false, Monitor(false, false, 0, None))

  function Stop(m: Monitor): Monitor { m.(stopped := true) }

  /** `checkCancellation` up to its await. */
  function Check(a: Attempt): Attempt {
    if a.monitor.stopped || a.monitor.inFlight || a.aborted then a
    else a.(monitor := a.monitor.(inFlight := true, outstanding := a.monitor.outstanding + 1, served := None))
  }

  /** The controller exists, the queue's signal is forwarded and the monitor makes its first check. */
  function Begin(a: Attempt, signalAborted: bool): Attempt {
    Check(a.(phase := Extracting, aborted := signalAborted))
  }

  /** The controller aborts, by the queue's signal; the monitor listens and stops. */
  function Abort(a: Attempt): Attempt {
    if a.aborted then a else a.(aborted := true, monitor := Stop(a.monitor))
  }

  /** A flag query is answered; a positive answer aborts the controller and stops the monitor. */
  function Reply(a: Attempt, canceled: bool): Attempt
    requires a.monitor.outstanding > 0
  {
    var m := a.monitor.(outstanding := a.monitor.outstanding - 1, inFlight := false, served := None);
    if canceled then a.(aborted := true, monitor := Stop(m)) else a.(monitor := m)
  }

  /** The catch and finally blocks: an aborted controller turns every error into a cancellation. */
  function Throw(a: Attempt, reason: string): Attempt {
    a.(phase := Ending(if a.aborted then Canceled else Failure(reason)), monitor := Stop(a.monitor))
  }

  /** Extraction returned: the gate before formatting throws when the controller is aborted. */
  function Extracted(a: Attempt): Attempt {
    if a.aborted then a.(phase := Ending(Canceled), monitor := Stop(a.monitor)) else a.(phase := Formatting)
  }

  /** Loading fails before the try block: there is no monitor and no conversion of the error. */
  function NeverLoaded(a: Attempt, reason: string): Attempt {
    a.(phase := Ending(Failure(reason)), monitor := Stop(a.monitor))
  }

  function Formatted(a: Attempt): Attempt { a.(phase := Ending(Finished), monitor := Stop(a.monitor)) }

  // ---------------------------------------------------------------- the system

  datatype JobState = Absent | Waiting | Delayed | Active | Completed | Failed(reason: string)

  datatype Status = Queued | Running | Done | Failing | CanceledStatus

  datatype Answer = Removed | Flagged | Refused

  datatype Caller =
    | Idle
    | Ready       // the use case has read a cancelable status
    | Found       // the manager has the job
    | SawQueued | SawActive
    | Removing    // removeJob has the job
    | Answered(answer: Answer)

  datatype System = System(
    job: JobState, maxAttempts: nat, flag: bool, attempts: seq<Attempt>, callers: map<nat, Caller>)

  datatype Step =
    | CancelRequested(c: nat) | CancelLookedUp(c: nat) | CancelReadState(c: nat)
    | RemoveLookedUp(c: nat) | RemoveDone(c: nat, ok: bool) | CancelMarked(c: nat)
    | FlagExpired
    | Picked | DelayElapsed | Evicted
    | Loaded(signalAborted: bool) | LoadFailed(reason: string)
    | ExtractReturned | ExtractThrew(reason: string) | FormatReturned | FormatThrew(reason: string)
    | Recorded
    | Ticked(k: nat) | Served(k: nat) | Replied(k: nat) | ReplyLost(k: nat) | SignalAborted(k: nat)

  predicate Contains(s: string, part: string) { exists i :: 0 <= i <= |s| && part <= s[i..] }

  /** `mapBullMQState` */
  function StatusOf(state: JobState): Status
    requires !state.Absent?
  {
    match state
    case Waiting => Queued
    case Delayed => Queued
    case Active => Running
    case Completed => Done
    case Failed(reason) => if Contains(reason, "canceled") then CanceledStatus else Failing
  }

  function Pc(s: System, c: nat): Caller { if c in s.callers then s.callers[c] else Idle }

  function At(s: System, c: nat, pc: Caller): System { s.(callers := s.callers[c := pc]) }

  predicate Live(s: System) { s.attempts != [] && !s.attempts[|s.attempts| - 1].phase.Over? }

  function Last(s: System): Attempt
    requires s.attempts != []
  {
    s.attempts[|s.attempts| - 1]
  }

  function SetAttempt(s: System, k: nat, a: Attempt): System
    requires k < |s.attempts|
  {
    s.(attempts := s.attempts[k := a])
  }

  function SetLast(s: System, a: Attempt): System
    requires s.attempts != []
  {
    SetAttempt(s, |s.attempts| - 1, a)
  }

  /** The queue's reaction to the outcome of an attempt; `made` attempts have been recorded before. */
  function Record(outcome: Outcome, made: nat, maxAttempts: nat): JobState {
    match outcome
    case Finished => Completed
    case Canceled => Failed("canceled")
    case Failure(reason) => if made + 1 < maxAttempts then Delayed else Failed(reason)
  }

  predicate LiveIn(s: System, p: Phase) { Live(s) && Last(s).phase == p }

  predicate Enabled(s: System, step: Step) {
    match step
    case CancelRequested(c) => Pc(s, c).Idle?
    case CancelLookedUp(c) => Pc(s, c).Ready?
    case CancelReadState(c) => Pc(s, c).Found?
    case RemoveLookedUp(c) => Pc(s, c).SawQueued?
    case RemoveDone(c, ok) => Pc(s, c).Removing? && (s.job.Active? ==> !ok)
    case CancelMarked(c) => Pc(s, c).SawActive?
    case FlagExpired => true
    case Picked => s.job.Waiting?
    case DelayElapsed => s.job.Delayed?
    case Evicted => s.job.Completed? || s.job.Failed?
    case Loaded(_) => LiveIn(s, Loading)
    case LoadFailed(_) => LiveIn(s, Loading)
    case ExtractReturned => LiveIn(s, Extracting)
    case ExtractThrew(_) => LiveIn(s, Extracting)
    case FormatReturned => LiveIn(s, Formatting)
    case FormatThrew(_) => LiveIn(s, Formatting)
    case Recorded => Live(s) && Last(s).phase.Ending?
    case Ticked(k) => k < |s.attempts| && !s.attempts[k].phase.Loading?
    case Served(k) => k < |s.attempts| && s.attempts[k].monitor.outstanding > 0 && s.attempts[k].monitor.served.None?
    case Replied(k) => k < |s.attempts| && s.attempts[k].monitor.outstanding > 0 && s.attempts[k].monitor.served.Some?
    case ReplyLost(k) => k < |s.attempts| && s.attempts[k].monitor.outstanding > 0
    case SignalAborted(k) => k < |s.attempts| && !s.attempts[k].phase.Loading?
  }

  function Apply(s: System, step: Step): System
    requires Enabled(s, step)
  {
    match step
    case CancelRequested(c) =>
      if s.job.Absent? || StatusOf(s.job) in {Done, CanceledStatus} then At(s, c, Answered(Refused))
      else At(s, c, Ready)
    case CancelLookedUp(c) => At(s, c, if s.job.Absent? then Answered(Refused) else Found)
    case CancelReadState(c) =>
      At(s, c,
        if s.job.Waiting? || s.job.Delayed? then SawQueued else if s.job.Active? then SawActive else Answered(Refused))
    case RemoveLookedUp(c) => At(s, c, if s.job.Absent? then Answered(Refused) else Removing)
    case RemoveDone(c, ok) =>
      if ok then At(s.(job := Absent), c, Answered(Removed)) else At(s, c, Answered(Refused))
    case CancelMarked(c) => At(s.(flag := true), c, Answered(Flagged))
    case FlagExpired => s.(flag := false)
    case Picked => s.(job := Active, attempts := s.attempts + [NewAttempt])
    case DelayElapsed => s.(job := Waiting)
    case Evicted => s.(job := Absent)
    case Loaded(signalAborted) => SetLast(s, Begin(Last(s), signalAborted))
    case LoadFailed(reason) => SetLast(s, NeverLoaded(Last(s), reason))
    case ExtractReturned => SetLast(s, Extracted(Last(s)))
    case ExtractThrew(reason) => SetLast(s, Throw(Last(s), reason))
    case FormatReturned => SetLast(s, Formatted(Last(s)))
    case FormatThrew(reason) => SetLast(s, Throw(Last(s), reason))
    case Recorded =>
      var o := Last(s).phase.outcome;
      SetLast(s.(job := Record(o, |s.attempts| - 1, s.maxAttempts)), Last(s).(phase := Over(o)))
    case Ticked(k) => SetAttempt(s, k, Check(s.attempts[k]))
    case Served(k) =>
      SetAttempt(s, k, s.attempts[k].(monitor := s.attempts[k].monitor.(served := Some(s.flag))))
    case Replied(k) => SetAttempt(s, k, Reply(s.attempts[k], s.attempts[k].monitor.served.value))
    case ReplyLost(k) => SetAttempt(s, k, Reply(s.attempts[k], false))
    case SignalAborted(k) => SetAttempt(s, k, Abort(s.attempts[k]))
  }

  /** A job has been enqueued, nothing has happened to it. */
  function Initial(maxAttempts: nat): System { System(Waiting, maxAttempts, false, [], map[]) }

  /** The states of a run of the system: each state is the previous one after its step. */
  ghost predicate Run(maxAttempts: nat, steps: seq<Step>, states: seq<System>) {
    && |states| == |steps| + 1
    && states[0] == Initial(maxAttempts)
    && forall i :: 0 <= i < |steps| ==> Enabled(states[i], steps[i]) && states[i + 1] == Apply(states[i], steps[i])
  }

  // ---------------------------------------------------------------- invariant

  /** One outstanding query while `inFlight`, none otherwise; past the gate the monitor is stopped. */
  predicate MonitorOk(a: Attempt) {
    && a.monitor.outstanding == (if a.monitor.inFlight then 1 else 0)
    && (a.monitor.served.Some? ==> a.monitor.inFlight)
    && (a.phase.Loading? ==> a == NewAttempt)
    && (a.phase == Ending(Canceled) || a.phase == Over(Canceled) ==> a.aborted)
    && (a.phase.Ending? || a.phase.Over? ==> a.monitor.stopped)
  }

  function Bound(maxAttempts: nat): nat { if maxAttempts == 0 then 1 else maxAttempts }

  ghost predicate Inv(s: System) {
    && (forall k :: 0 <= k < |s.attempts| ==> MonitorOk(s.attempts[k]))
    && (forall k :: 0 <= k < |s.attempts| - 1 ==> s.attempts[k].phase.Over? && s.attempts[k].phase.outcome.Failure?)
    && (s.job.Active? <==> Live(s))
    && |s.attempts| <= Bound(s.maxAttempts)
    && (s.job.Waiting? || s.job.Delayed? ==> |s.attempts| < Bound(s.maxAttempts))
    && (s.attempts != [] && Last(s).phase.Over? && !Last(s).phase.outcome.Failure? ==>
          s.job.Absent? || s.job == Record(Last(s).phase.outcome, 0, 0))
    && (forall c :: c in s.callers && s.callers[c] == Answered(Removed) ==> s.job.Absent?)
  }

  /** Steps of the worker, the monitor and the queue's signal, which change one attempt. */
  predicate OnAttempt(step: Step) {
    match step
    case Loaded(_) => true
    case LoadFailed(_) => true
    case ExtractReturned => true
    case ExtractThrew(_) => true
    case FormatReturned => true
    case FormatThrew(_) => true
    case Ticked(_) => true
    case Served(_) => true
    case Replied(_) => true
    case ReplyLost(_) => true
    case SignalAborted(_) => true
    case _ => false
  }

  /** Such a step changes one attempt to a legal successor and nothing else. */
  lemma {:induction false} AttemptStepChangesOne(s: System, step: Step) returns (k: int, a: Attempt)
    requires Inv(s) && Enabled(s, step) && OnAttempt(step)
    ensures 0 <= k < |s.attempts| && Apply(s, step) == SetAttempt(s, k, a)
    ensures MonitorOk(a)
    ensures a.phase.Over? <==> s.attempts[k].phase.Over?
    ensures a.phase.Over? ==> a.phase == s.attempts[k].phase
  {
    k := |s.attempts| - 1;
    match step {
      case Ticked(i) => k := i;
      case Served(i) => k := i;
      case Replied(i) => k := i;
      case ReplyLost(i) => k := i;
      case SignalAborted(i) => k := i;
      case _ =>
    }
    a := Apply(s, step).attempts[k];
    assert MonitorOk(s.attempts[k]);
  }

  lemma {:induction false} ChangedAttemptKeepsInv(s: System, k: nat, a: Attempt)
    requires Inv(s) && k < |s.attempts| && MonitorOk(a)
    requires a.phase.Over? <==> s.attempts[k].phase.Over?
    requires a.phase.Over? ==> a.phase == s.attempts[k].phase
    ensures Inv(SetAttempt(s, k, a))
  {
    hide MonitorOk;
  }

  lemma {:induction false} QueueStepKeepsInv(s: System, step: Step)
    requires Inv(s) && Enabled(s, step) && !OnAttempt(step)
    ensures Inv(Apply(s, step))
  {
    var t := Apply(s, step);
    forall k | 0 <= k < |t.attempts| ensures MonitorOk(t.attempts[k]) {
      if k < |s.attempts| { assert MonitorOk(s.attempts[k]); }
    }
  }

  lemma {:induction false} StepKeepsInv(s: System, step: Step)
    requires Inv(s) && Enabled(s, step)
    ensures Inv(Apply(s, step))
  {
    hide Inv, Apply, Enabled, MonitorOk;
    if OnAttempt(step) {
      var k, a := AttemptStepChangesOne(s, step);
      ChangedAttemptKeepsInv(s, k, a);
    } else {
      QueueStepKeepsInv(s, step);
    }
  }

  lemma {:induction false} RunKeepsInv(maxAttempts: nat, steps: seq<Step>, states: seq<System>, i: nat)
    requires Run(maxAttempts, steps, states) && i < |states|
    ensures Inv(states[i])
  {
    if i == 0 {
    } else {
      RunKeepsInv(maxAttempts, steps, states, i - 1);
      StepKeepsInv(states[i - 1], steps[i - 1]);
    }
  }

  // ---------------------------------------------------------------- what the steps do

  predicate Reports(job: JobState, status: Status) { !job.Absent? && StatusOf(job) == status }

  /** What a caller makes of the job at each of its steps; no step of one caller moves another. */
  lemma {:induction false} CallerSees(s: System, step: Step, c: nat)
    requires Enabled(s, step)
    ensures
      var pc := Pc(Apply(s, step), c);
      match step
      case CancelRequested(d) => pc == if d != c then Pc(s, c)
        else if Reports(s.job, Queued) || Reports(s.job, Running) || Reports(s.job, Failing) then Ready
        else Answered(Refused)
      case CancelLookedUp(d) => pc == if d != c then Pc(s, c) else if s.job.Absent? then Answered(Refused) else Found
      case CancelReadState(d) => pc == if d != c then Pc(s, c)
        else if Reports(s.job, Queued) then SawQueued
        else if Reports(s.job, Running) then SawActive
        else Answered(Refused)
      case RemoveLookedUp(d) => pc == if d != c then Pc(s, c) else if s.job.Absent? then Answered(Refused) else Removing
      case RemoveDone(d, ok) => pc == if d != c then Pc(s, c) else Answered(if ok then Removed else Refused)
      case CancelMarked(d) => pc == if d != c then Pc(s, c) else Answered(Flagged)
      case _ => pc == Pc(s, c)
  {
  }

  /** No process waits for another: what each may do next depends on its own part of the state. */
  lemma {:induction false} NothingIsHeldBack(s: System, k: nat, signalAborted: bool, reason: string)
    requires Inv(s)
    ensures Enabled(s, FlagExpired)
    ensures (s.job.Waiting? <==> Enabled(s, Picked)) && (s.job.Delayed? <==> Enabled(s, DelayElapsed))
    ensures s.job.Completed? || s.job.Failed? <==> Enabled(s, Evicted)
    ensures s.job.Active? ==>
      match Last(s).phase
      case Loading => Enabled(s, Loaded(signalAborted)) && Enabled(s, LoadFailed(reason))
      case Extracting => Enabled(s, ExtractReturned) && Enabled(s, ExtractThrew(reason))
      case Formatting => Enabled(s, FormatReturned) && Enabled(s, FormatThrew(reason))
      case Ending(_) => Enabled(s, Recorded)
      case Over(_) => false
    ensures k < |s.attempts| && !s.attempts[k].phase.Loading? ==> Enabled(s, Ticked(k)) && Enabled(s, SignalAborted(k))
    ensures Outstanding(s, k) == 1 ==>
      Enabled(s, ReplyLost(k)) && (Enabled(s, Served(k)) || Enabled(s, Replied(k)))
  {
    hide StatusOf, Record, Apply;
    if s.job.Active? { ActiveGoesOn(s, signalAborted, reason); }
    QueryGoesOn(s, k);
    hide Inv, Outstanding;
  }

  lemma {:induction false} QueryGoesOn(s: System, k: nat)
    requires Inv(s)
    ensures Outstanding(s, k) == 1 ==>
      Enabled(s, ReplyLost(k)) && (Enabled(s, Served(k)) || Enabled(s, Replied(k)))
  {
    hide StatusOf, Record, Apply;
  }

  lemma {:induction false} ActiveGoesOn(s: System, signalAborted: bool, reason: string)
    requires Inv(s) && s.job.Active?
    ensures
      match Last(s).phase
      case Loading => Enabled(s, Loaded(signalAborted)) && Enabled(s, LoadFailed(reason))
      case Extracting => Enabled(s, ExtractReturned) && Enabled(s, ExtractThrew(reason))
      case Formatting => Enabled(s, FormatReturned) && Enabled(s, FormatThrew(reason))
      case Ending(_) => Enabled(s, Recorded)
      case Over(_) => false
  {
    hide StatusOf, Record, Apply;
  }

  ghost predicate Marked(steps: seq<Step>, i: int, j: nat) {
    0 <= i < j <= |steps| && steps[i].CancelMarked? && forall l :: i < l < j ==> steps[l] != FlagExpired
  }

  /** In every run the flag is written exactly when a caller has written it and it has not expired since. */
  lemma {:induction false} FlaggedExactlyWhen(maxAttempts: nat, steps: seq<Step>, states: seq<System>, j: nat)
    requires Run(maxAttempts, steps, states) && j < |states|
    ensures states[j].flag <==> exists i :: Marked(steps, i, j)
  {
    if j == 0 {
    } else {
      var p: nat := j - 1;
      FlaggedExactlyWhen(maxAttempts, steps, states, p);
      assert states[j].flag <==> steps[p].CancelMarked? || (states[p].flag && steps[p] != FlagExpired) by {
        OnlyCallersMark(states[p], steps[p]);
      }
      hide Apply, Enabled;
      forall i ensures Marked(steps, i, j) <==>
        (Marked(steps, i, p) && steps[p] != FlagExpired) || (i == p && steps[p].CancelMarked?)
      {
      }
      if steps[p].CancelMarked? { assert Marked(steps, p, j); }
    }
  }

  lemma {:induction false} OnlyCallersMark(s: System, step: Step)
    requires Enabled(s, step)
    ensures Apply(s, step).flag <==> step.CancelMarked? || (s.flag && step != FlagExpired)
  {
    hide StatusOf;
  }

  predicate Removes(step: Step) { step == Evicted || (step.RemoveDone? && step.ok) }

  /** In every run the job is gone exactly when it was removed or evicted. */
  lemma {:induction false} GoneExactlyWhen(maxAttempts: nat, steps: seq<Step>, states: seq<System>, j: nat)
    requires Run(maxAttempts, steps, states) && j < |states|
    ensures states[j].job.Absent? <==> exists i :: 0 <= i < j && Removes(steps[i])
  {
    if j == 0 {
    } else {
      RunKeepsInv(maxAttempts, steps, states, j - 1);
      GoneExactlyWhen(maxAttempts, steps, states, j - 1);
      StepRemoves(states[j - 1], steps[j - 1]);
    }
  }

  lemma {:induction false} StepRemoves(s: System, step: Step)
    requires Inv(s) && Enabled(s, step)
    ensures Apply(s, step).job.Absent? <==> s.job.Absent? || Removes(step)
  {
    hide MonitorOk, StatusOf;
  }

  // ---------------------------------------------------------------- main results

  predicate EndedWith(s: System, k: nat, outcome: Outcome) {
    k < |s.attempts| && (s.attempts[k].phase == Ending(outcome) || s.attempts[k].phase == Over(outcome))
  }

  lemma {:induction false} OutcomeStays(s: System, step: Step, k: nat, outcome: Outcome)
    requires Inv(s) && Enabled(s, step) && EndedWith(s, k, outcome)
    ensures EndedWith(Apply(s, step), k, outcome)
  {
    hide Inv, StatusOf, Record;
  }

  /** The outcome of an attempt is final: later replies, signals, ticks and queue steps cannot change it. */
  lemma {:induction false} OutcomeIsFinal(
      maxAttempts: nat, steps: seq<Step>, states: seq<System>, i: nat, j: nat, k: nat, outcome: Outcome)
    requires Run(maxAttempts, steps, states) && i <= j < |states| && EndedWith(states[i], k, outcome)
    ensures EndedWith(states[j], k, outcome)
  {
    hide Inv, Apply, Enabled, EndedWith;
    if i == j {
    } else {
      OutcomeIsFinal(maxAttempts, steps, states, i, j - 1, k, outcome);
      RunKeepsInv(maxAttempts, steps, states, j - 1);
      OutcomeStays(states[j - 1], steps[j - 1], k, outcome);
    }
  }

  /** A flag query starts only in a monitor that is neither stopped nor aborted nor waiting for one. */
  lemma {:induction false} QueriesStartOnlyWhenActive(s: System, step: Step, k: nat)
    requires Inv(s) && Enabled(s, step) && k < |s.attempts|
    requires Apply(s, step).attempts[k].monitor.outstanding > s.attempts[k].monitor.outstanding
    ensures !s.attempts[k].monitor.stopped && !s.attempts[k].aborted && s.attempts[k].monitor.outstanding == 0
    ensures Apply(s, step).attempts[k].monitor.outstanding == 1
  {
    assert MonitorOk(s.attempts[k]);
  }

  /** The flag queries of attempt `k` that have been sent and not answered. */
  function Outstanding(s: System, k: nat): nat { if k < |s.attempts| then s.attempts[k].monitor.outstanding else 0 }

  /** A monitor that is free to ask: it runs, its controller is not aborted, and no query is under way. */
  predicate FreeToAsk(a: Attempt) { !a.monitor.stopped && !a.aborted && a.monitor.outstanding == 0 }

  /**
   * A step sends a query exactly when it is a tick of an idle monitor, in whatever phase past loading,
   * or when it starts the monitor of an attempt that the queue's signal has not aborted.
   */
  lemma {:induction false} StepAsksExactlyWhen(s: System, step: Step, k: nat)
    requires Inv(s) && Enabled(s, step)
    ensures Outstanding(Apply(s, step), k) > Outstanding(s, k) <==>
      && k < |s.attempts|
      && ((step == Ticked(k) && FreeToAsk(s.attempts[k])) || (step == Loaded(false) && k + 1 == |s.attempts|))
    ensures Outstanding(Apply(s, step), k) > Outstanding(s, k) ==>
      Apply(s, step).attempts[k].monitor == Monitor(false, true, 1, None)
  {
    if k < |s.attempts| { assert MonitorOk(s.attempts[k]); }
    hide Inv, StatusOf, Record;
  }

  /** A monitor stops when its attempt ends, a positive answer comes in, or the signal aborts the controller. */
  lemma {:induction false} StepStopsExactlyWhen(s: System, step: Step, k: nat)
    requires Inv(s) && Enabled(s, step) && k < |s.attempts|
    ensures k < |Apply(s, step).attempts|
    ensures Apply(s, step).attempts[k].monitor.stopped <==>
      || s.attempts[k].monitor.stopped
      || Ended(Apply(s, step), k)
      || (step == Replied(k) && s.attempts[k].monitor.served == Some(true))
      || (step == SignalAborted(k) && !s.attempts[k].aborted)
  {
    assert MonitorOk(s.attempts[k]);
    hide Inv, StatusOf, Record;
  }

  /** In every run a monitor is stopped only when its controller is aborted or its attempt has ended. */
  lemma {:induction false} StoppedOnlyWhen(
      maxAttempts: nat, steps: seq<Step>, states: seq<System>, j: nat, k: nat)
    requires Run(maxAttempts, steps, states) && j < |states| && k < |states[j].attempts|
    ensures states[j].attempts[k].monitor.stopped ==> states[j].attempts[k].aborted || Ended(states[j], k)
  {
    if j == 0 {
    } else {
      var s, step := states[j - 1], steps[j - 1];
      RunKeepsInv(maxAttempts, steps, states, j - 1);
      if k < |s.attempts| {
        StoppedOnlyWhen(maxAttempts, steps, states, j - 1, k);
        StoppedStep(s, step, k);
      } else {
        OnlyPickingAdds(s, step, k);
      }
    }
  }

  lemma {:induction false} StoppedStep(s: System, step: Step, k: nat)
    requires Inv(s) && Enabled(s, step) && k < |s.attempts|
    requires s.attempts[k].monitor.stopped ==> s.attempts[k].aborted || Ended(s, k)
    ensures k < |Apply(s, step).attempts|
    ensures Apply(s, step).attempts[k].monitor.stopped ==>
      Apply(s, step).attempts[k].aborted || Ended(Apply(s, step), k)
  {
    assert MonitorOk(s.attempts[k]);
    hide Inv, StatusOf, Record;
  }

  lemma {:induction false} OnlyPickingAdds(s: System, step: Step, k: nat)
    requires Enabled(s, step) && |s.attempts| <= k < |Apply(s, step).attempts|
    ensures step == Picked && k == |s.attempts| && Apply(s, step).attempts[k] == NewAttempt
  {
    hide StatusOf, Record;
  }

  /** The monitor of the attempt sends no more queries, and at most `limit` answers are still expected. */
  predicate Silenced(s: System, k: nat, limit: nat) {
    && k < |s.attempts|
    && (s.attempts[k].monitor.stopped || s.attempts[k].aborted)
    && s.attempts[k].monitor.outstanding <= limit
  }

  lemma {:induction false} SilenceStays(s: System, step: Step, k: nat, limit: nat)
    requires Inv(s) && Enabled(s, step) && Silenced(s, k, limit)
    ensures Silenced(Apply(s, step), k, limit)
  {
    assert MonitorOk(s.attempts[k]);
    hide Inv, StatusOf, Record;
  }

  /**
   * In every run a monitor has at most one query outstanding, exactly while `inFlight`, and from the
   * moment it is stopped or its controller aborted it never sends another.
   */
  lemma {:induction false} NoQueryAfterStop(
      maxAttempts: nat, steps: seq<Step>, states: seq<System>, i: nat, j: nat, k: nat)
    requires Run(maxAttempts, steps, states) && i <= j < |states| && k < |states[i].attempts|
    requires states[i].attempts[k].monitor.stopped || states[i].attempts[k].aborted
    ensures Silenced(states[j], k, states[i].attempts[k].monitor.outstanding)
    ensures states[i].attempts[k].monitor.outstanding == (if states[i].attempts[k].monitor.inFlight then 1 else 0)
  {
    hide Apply, Enabled;
    RunKeepsInv(maxAttempts, steps, states, i);
    assert MonitorOk(states[i].attempts[k]);
    hide Inv, MonitorOk;
    if i == j {
    } else {
      NoQueryAfterStop(maxAttempts, steps, states, i, j - 1, k);
      RunKeepsInv(maxAttempts, steps, states, j - 1);
      SilenceStays(states[j - 1], steps[j - 1], k, states[i].attempts[k].monitor.outstanding);
    }
  }

  /** Aborted before the gate, or already on the way to the "canceled" failure. */
  predicate Doomed(a: Attempt) {
    a.aborted && (a.phase.Extracting? || a.phase == Ending(Canceled) || a.phase == Over(Canceled))
  }

  lemma {:induction false} DoomStays(s: System, step: Step, k: nat)
    requires Inv(s) && Enabled(s, step) && k < |s.attempts| && Doomed(s.attempts[k])
    ensures k < |Apply(s, step).attempts| && Doomed(Apply(s, step).attempts[k])
  {
    assert MonitorOk(s.attempts[k]);
    hide Inv, StatusOf;
  }

  lemma {:induction false} CanceledIsContained()
    ensures Contains("canceled", "canceled")
  {
    assert "canceled"[0..] == "canceled";
  }

  lemma {:induction false} DoomedIsReported(s: System, k: nat)
    requires Inv(s) && k < |s.attempts| && Doomed(s.attempts[k]) && s.attempts[k].phase.Over?
    ensures |s.attempts| == k + 1
    ensures s.job.Absent? || StatusOf(s.job) == CanceledStatus
  {
    CanceledIsContained();
  }

  /**
   * In every run, an attempt whose controller is aborted before the formatting gate never finishes:
   * once its outcome is recorded it is the last attempt, never retried, and the job reports
   * "canceled" in every later state until it is evicted.
   */
  lemma {:induction false} AbortedBeforeGateIsCanceled(
      maxAttempts: nat, steps: seq<Step>, states: seq<System>, i: nat, j: nat, k: nat)
    requires Run(maxAttempts, steps, states) && i <= j < |states|
    requires k < |states[i].attempts| && states[i].attempts[k].phase.Extracting? && states[i].attempts[k].aborted
    ensures k < |states[j].attempts| && Doomed(states[j].attempts[k])
    ensures states[j].attempts[k].phase.Over? ==>
      && |states[j].attempts| == k + 1
      && (states[j].job.Absent? || StatusOf(states[j].job) == CanceledStatus)
  {
    hide Inv, Apply, Enabled, StatusOf;
    if j == i {
    } else {
      AbortedBeforeGateIsCanceled(maxAttempts, steps, states, i, j - 1, k);
      RunKeepsInv(maxAttempts, steps, states, j - 1);
      DoomStays(states[j - 1], steps[j - 1], k);
    }
    RunKeepsInv(maxAttempts, steps, states, j);
    if states[j].attempts[k].phase.Over? {
      DoomedIsReported(states[j], k);
    }
  }

  /** The attempt is aborted, or a query sent while the flag was written is still to be answered. */
  predicate Armed(s: System, k: nat) {
    && k < |s.attempts|
    && (s.attempts[k].aborted
        || (s.flag && s.attempts[k].monitor.inFlight && s.attempts[k].monitor.served != Some(false)))
  }

  predicate Disarms(step: Step, k: nat) { step == FlagExpired || step == ReplyLost(k) || step == Replied(k) }

  lemma {:induction false} ArmedStays(s: System, step: Step, k: nat)
    requires Inv(s) && Enabled(s, step) && Armed(s, k) && !Disarms(step, k)
    ensures Armed(Apply(s, step), k)
  {
    assert MonitorOk(s.attempts[k]);
    hide Inv, StatusOf, Record;
  }

  lemma {:induction false} ArmedUntil(
      maxAttempts: nat, steps: seq<Step>, states: seq<System>, a: nat, b: nat, k: nat)
    requires Run(maxAttempts, steps, states) && a <= b < |states| && Armed(states[a], k)
    requires forall i :: a <= i < b ==> !Disarms(steps[i], k)
    ensures Armed(states[b], k)
  {
    hide Inv, Apply, Enabled, Armed, Disarms;
    if a == b {
    } else {
      ArmedUntil(maxAttempts, steps, states, a, b - 1, k);
      RunKeepsInv(maxAttempts, steps, states, b - 1);
      ArmedStays(states[b - 1], steps[b - 1], k);
    }
  }

  /**
   * A query that is under way and not served yet while the flag is written - the first one of an
   * attempt, one of the timer's, or one sent before the flag - and that is answered before the gate,
   * cancels: from the answer on the attempt never finishes and the job reports "canceled".
   */
  lemma {:induction false} AnsweredPollCancels(
      maxAttempts: nat, steps: seq<Step>, states: seq<System>, a: nat, b: nat, j: nat, k: nat)
    requires Run(maxAttempts, steps, states) && a <= b < j < |states| && k < |states[a].attempts|
    requires states[a].flag
    requires states[a].attempts[k].monitor.inFlight && states[a].attempts[k].monitor.served.None?
    requires steps[b] == Replied(k) && forall i :: a <= i < b ==> !Disarms(steps[i], k)
    requires k < |states[b].attempts| && states[b].attempts[k].phase.Extracting?
    ensures k < |states[j].attempts| && Doomed(states[j].attempts[k])
    ensures states[j].attempts[k].phase.Over? ==>
      states[j].job.Absent? || StatusOf(states[j].job) == CanceledStatus
  {
    hide Inv, StatusOf;
    ArmedUntil(maxAttempts, steps, states, a, b, k);
    RunKeepsInv(maxAttempts, steps, states, b);
    assert states[b + 1] == Apply(states[b], steps[b]);
    assert states[b + 1].attempts[k].aborted && states[b + 1].attempts[k].phase.Extracting?;
    hide Apply, Enabled;
    AbortedBeforeGateIsCanceled(maxAttempts, steps, states, b + 1, j, k);
  }

  // ---------------------------------------------------------------- exactly when a job is canceled

  /** The step aborts the controller of attempt `k`, if it is not aborted yet. */
  predicate Aborts(s: System, step: Step, k: nat) {
    || step == SignalAborted(k)
    || (step == Loaded(true) && k + 1 == |s.attempts|)
    || (step == Replied(k) && k < |s.attempts| && s.attempts[k].monitor.served == Some(true))
  }

  predicate IsAborted(s: System, k: nat) { k < |s.attempts| && s.attempts[k].aborted }

  /** A positive answer is on its way to the monitor of attempt `k`. */
  predicate Positive(s: System, k: nat) { k < |s.attempts| && s.attempts[k].monitor.served == Some(true) }

  predicate Answers(step: Step, k: nat) { step == Replied(k) || step == ReplyLost(k) }

  /** Steps of callers and of the queue leave the attempts as they are, up to a new one and a recorded phase. */
  lemma {:induction false} OthersKeepControllers(s: System, step: Step, k: nat)
    requires Inv(s) && Enabled(s, step) && !OnAttempt(step)
    ensures IsAborted(Apply(s, step), k) <==> IsAborted(s, k)
    ensures Positive(Apply(s, step), k) <==> Positive(s, k)
    ensures !Aborts(s, step, k) && !Answers(step, k) && step != Served(k)
  {
    hide Inv, StatusOf, Record;
  }

  lemma {:induction false} StepAborts(s: System, step: Step, k: nat)
    requires Inv(s) && Enabled(s, step)
    ensures IsAborted(Apply(s, step), k) <==> IsAborted(s, k) || Aborts(s, step, k)
  {
    if !OnAttempt(step) {
      OthersKeepControllers(s, step, k);
    } else if k < |s.attempts| {
      assert MonitorOk(s.attempts[k]);
    }
    hide Inv;
  }

  ghost predicate AbortedAt(steps: seq<Step>, states: seq<System>, i: int, j: nat, k: nat) {
    0 <= i < j && i < |steps| && i < |states| && Aborts(states[i], steps[i], k)
  }

  /**
   * In every run the controller of an attempt is aborted exactly when the queue's signal has reached
   * it, before or after loading, or a query has been answered with "canceled".
   */
  lemma {:induction false} AbortedExactlyWhen(
      maxAttempts: nat, steps: seq<Step>, states: seq<System>, j: nat, k: nat)
    requires Run(maxAttempts, steps, states) && j < |states|
    ensures IsAborted(states[j], k) <==> exists i :: AbortedAt(steps, states, i, j, k)
  {
    hide Inv, Apply, Enabled, Aborts, IsAborted;
    if j == 0 {
      NothingAtFirst(maxAttempts, k);
    } else {
      var p: nat := j - 1;
      AbortedExactlyWhen(maxAttempts, steps, states, p, k);
      RunKeepsInv(maxAttempts, steps, states, p);
      StepAborts(states[p], steps[p], k);
      forall i ensures AbortedAt(steps, states, i, j, k) <==>
        AbortedAt(steps, states, i, p, k) || (i == p && Aborts(states[p], steps[p], k))
      {
      }
      assert AbortedAt(steps, states, p, j, k) <==> Aborts(states[p], steps[p], k);
    }
  }

  lemma {:induction false} NothingAtFirst(maxAttempts: nat, k: nat)
    ensures !IsAborted(Initial(maxAttempts), k) && !Positive(Initial(maxAttempts), k)
    ensures !EndedWith(Initial(maxAttempts), k, Canceled)
  {
  }

  lemma {:induction false} StepServes(s: System, step: Step, k: nat)
    requires Inv(s) && Enabled(s, step)
    ensures Positive(Apply(s, step), k) <==>
      (Positive(s, k) && !Answers(step, k)) || (step == Served(k) && s.flag)
  {
    if !OnAttempt(step) {
      OthersKeepControllers(s, step, k);
    } else if k < |s.attempts| {
      assert MonitorOk(s.attempts[k]);
    }
    hide Inv;
  }

  /** The query of attempt `k` was served at `i`, while the flag was written, and not answered before `j`. */
  ghost predicate ServedAt(steps: seq<Step>, states: seq<System>, i: int, j: nat, k: nat) {
    && 0 <= i < j <= |steps| && i < |states| && steps[i] == Served(k) && states[i].flag
    && forall l :: i < l < j ==> !Answers(steps[l], k)
  }

  /** A positive answer is on its way exactly when the query was served while the flag was written. */
  lemma {:induction false} PositiveExactlyWhen(
      maxAttempts: nat, steps: seq<Step>, states: seq<System>, j: nat, k: nat)
    requires Run(maxAttempts, steps, states) && j < |states|
    ensures Positive(states[j], k) <==> exists i :: ServedAt(steps, states, i, j, k)
  {
    hide Inv, Apply, Enabled, Positive, Answers;
    if j == 0 {
      NothingAtFirst(maxAttempts, k);
    } else {
      var p: nat := j - 1;
      PositiveExactlyWhen(maxAttempts, steps, states, p, k);
      RunKeepsInv(maxAttempts, steps, states, p);
      StepServes(states[p], steps[p], k);
      var now := steps[p] == Served(k) && states[p].flag;
      forall i ensures ServedAt(steps, states, i, j, k) <==>
        (ServedAt(steps, states, i, p, k) && !Answers(steps[p], k)) || (i == p && now)
      {
      }
      assert ServedAt(steps, states, p, j, k) <==> now;
    }
  }

  /** The steps that turn an aborted attempt into a cancellation: the gate, and an error of either phase. */
  predicate Stops(step: Step) { step.ExtractReturned? || step.ExtractThrew? || step.FormatThrew? }

  predicate Ended(s: System, k: nat) {
    k < |s.attempts| && (s.attempts[k].phase.Ending? || s.attempts[k].phase.Over?)
  }

  predicate CanceledBy(s: System, step: Step, k: nat) { k + 1 == |s.attempts| && s.attempts[k].aborted && Stops(step) }

  /** The last attempt ends at this step, with this outcome. */
  predicate EndsWith(s: System, step: Step, k: nat, outcome: Outcome) {
    && k + 1 == |s.attempts|
    && match step
       case LoadFailed(reason) => outcome == Failure(reason)
       case ExtractReturned => s.attempts[k].aborted && outcome == Canceled
       case ExtractThrew(reason) => outcome == if s.attempts[k].aborted then Canceled else Failure(reason)
       case FormatThrew(reason) => outcome == if s.attempts[k].aborted then Canceled else Failure(reason)
       case FormatReturned => outcome == Finished
       case _ => false
  }

  lemma {:induction false} StepEnds(s: System, step: Step, k: nat, outcome: Outcome)
    requires Inv(s) && Enabled(s, step)
    ensures EndedWith(Apply(s, step), k, outcome) <==> EndedWith(s, k, outcome) || EndsWith(s, step, k, outcome)
  {
    hide Inv, StatusOf, Record;
  }

  /** The way of an attempt through its phases: only the last one moves, and only by these steps. */
  lemma {:induction false} StepMoves(s: System, step: Step, k: nat)
    requires Inv(s) && Enabled(s, step) && k < |s.attempts|
    ensures
      var p, q, last := s.attempts[k].phase, Apply(s, step).attempts[k].phase, k + 1 == |s.attempts|;
      && (q.Loading? <==> p.Loading? && !(last && (step.Loaded? || step.LoadFailed?)))
      && (q.Extracting? <==>
            (last && step.Loaded?) || (p.Extracting? && !(last && (step.ExtractReturned? || step.ExtractThrew?))))
      && (q.Formatting? <==>
            || (last && step.ExtractReturned? && !s.attempts[k].aborted)
            || (p.Formatting? && !(last && (step.FormatReturned? || step.FormatThrew?))))
      && (q.Over? <==> p.Over? || (last && step == Recorded))
  {
    assert MonitorOk(s.attempts[k]);
    hide Inv, StatusOf, Record;
  }

  ghost predicate EndsAt(
      steps: seq<Step>, states: seq<System>, e: int, j: nat, k: nat, outcome: Outcome) {
    0 <= e < j && e < |steps| && e < |states| && EndsWith(states[e], steps[e], k, outcome)
  }

  /**
   * In every run an attempt has an outcome exactly when one of its steps gave it: it finished when the
   * formatter returned, whatever happened to the controller then; it failed with the message of the
   * error thrown while loading, or later while not aborted; every other end is a cancellation.
   */
  lemma {:induction false} OutcomeExactlyWhen(
      maxAttempts: nat, steps: seq<Step>, states: seq<System>, j: nat, k: nat, outcome: Outcome)
    requires Run(maxAttempts, steps, states) && j < |states|
    ensures EndedWith(states[j], k, outcome) <==> exists e :: EndsAt(steps, states, e, j, k, outcome)
  {
    hide Inv, Apply, Enabled, EndsWith;
    if j == 0 {
    } else {
      var p: nat := j - 1;
      OutcomeExactlyWhen(maxAttempts, steps, states, p, k, outcome);
      RunKeepsInv(maxAttempts, steps, states, p);
      hide EndedWith;
      StepEnds(states[p], steps[p], k, outcome);
      forall e ensures EndsAt(steps, states, e, j, k, outcome) <==>
        EndsAt(steps, states, e, p, k, outcome) || (e == p && EndsWith(states[p], steps[p], k, outcome))
      {
      }
      assert EndsAt(steps, states, p, j, k, outcome) <==> EndsWith(states[p], steps[p], k, outcome);
    }
  }

  /** From "not yet ended" a step cancels an attempt exactly when it is the last, aborted, and stopped. */
  lemma {:induction false} StepCancels(s: System, step: Step, k: nat)
    requires Inv(s) && Enabled(s, step) && !Ended(s, k)
    ensures !EndedWith(s, k, Canceled)
    ensures EndedWith(Apply(s, step), k, Canceled) <==> CanceledBy(s, step, k)
  {
    hide Inv, StatusOf, Record;
  }

  lemma {:induction false} EndedStays(s: System, step: Step, k: nat)
    requires Inv(s) && Enabled(s, step) && Ended(s, k)
    ensures EndedWith(Apply(s, step), k, Canceled) <==> EndedWith(s, k, Canceled)
    ensures Stops(step) ==> k + 1 < |s.attempts|
  {
    if s.attempts[k].phase.Ending? || s.attempts[k].phase.Over? {
      OutcomeStays(s, step, k, s.attempts[k].phase.outcome);
    }
  }

  ghost predicate CanceledAt(steps: seq<Step>, states: seq<System>, e: int, j: nat, k: nat) {
    0 <= e < j && e < |steps| && e < |states| && CanceledBy(states[e], steps[e], k)
  }

  lemma {:induction false} CanceledByStop(
      maxAttempts: nat, steps: seq<Step>, states: seq<System>, j: nat, k: nat)
    requires Run(maxAttempts, steps, states) && j < |states|
    ensures EndedWith(states[j], k, Canceled) <==> exists e :: CanceledAt(steps, states, e, j, k)
  {
    hide Inv, Apply, Enabled, EndedWith, Stops, Ended;
    if j == 0 {
      NothingAtFirst(maxAttempts, k);
    } else {
      var p: nat := j - 1;
      var s, step := states[p], steps[p];
      CanceledByStop(maxAttempts, steps, states, p, k);
      RunKeepsInv(maxAttempts, steps, states, p);
      if Ended(s, k) { EndedStays(s, step, k); } else { StepCancels(s, step, k); }
      forall e ensures CanceledAt(steps, states, e, j, k) <==>
        CanceledAt(steps, states, e, p, k) || (e == p && CanceledBy(s, step, k))
      {
      }
      assert CanceledAt(steps, states, p, j, k) <==> CanceledBy(s, step, k);
    }
  }

  /** Step `a` reaches the controller: the queue's signal, or an answer to a query served while the flag was written. */
  ghost predicate Cause(steps: seq<Step>, states: seq<System>, a: int, k: nat) {
    && 0 <= a < |steps| && a < |states|
    && (steps[a] == SignalAborted(k)
        || (steps[a] == Loaded(true) && k + 1 == |states[a].attempts|)
        || (steps[a] == Replied(k) && exists i :: ServedAt(steps, states, i, a, k)))
  }

  lemma {:induction false} CauseAborts(
      maxAttempts: nat, steps: seq<Step>, states: seq<System>, a: nat, k: nat)
    requires Run(maxAttempts, steps, states) && a < |steps|
    ensures Aborts(states[a], steps[a], k) <==> Cause(steps, states, a, k)
  {
    hide Inv, Apply;
    PositiveExactlyWhen(maxAttempts, steps, states, a, k);
  }

  ghost predicate CanceledVia(steps: seq<Step>, states: seq<System>, a: int, e: int, j: nat, k: nat) {
    && 0 <= a < e < j && e < |steps| && e < |states|
    && Cause(steps, states, a, k) && Stops(steps[e]) && k + 1 == |states[e].attempts|
  }

  /**
   * The exact condition of a cancellation, in every run: an attempt ends "canceled" exactly when,
   * first, the queue's signal reaches it or a query that was served while the flag was written is
   * answered, and then extraction returns or throws or the formatter throws. So a written flag has an
   * effect exactly when a query is served while it is written and answered before that.
   */
  lemma {:induction false} CanceledExactlyWhen(
      maxAttempts: nat, steps: seq<Step>, states: seq<System>, j: nat, k: nat)
    requires Run(maxAttempts, steps, states) && j < |states|
    ensures EndedWith(states[j], k, Canceled) <==> exists a, e :: CanceledVia(steps, states, a, e, j, k)
  {
    hide Inv, Apply, Enabled, EndedWith, Stops, Aborts, Cause;
    CanceledByStop(maxAttempts, steps, states, j, k);
    if e :| CanceledAt(steps, states, e, j, k) {
      AbortedExactlyWhen(maxAttempts, steps, states, e, k);
      var a :| AbortedAt(steps, states, a, e, k);
      CauseAborts(maxAttempts, steps, states, a, k);
      assert CanceledVia(steps, states, a, e, j, k);
    }
    if a, e :| CanceledVia(steps, states, a, e, j, k) {
      CauseAborts(maxAttempts, steps, states, a, k);
      assert AbortedAt(steps, states, a, e, k);
      AbortedExactlyWhen(maxAttempts, steps, states, e, k);
      assert CanceledAt(steps, states, e, j, k);
    }
  }

  /**
   * A tick while the flag is written cancels, in every phase: when an idle monitor ticks, its query is
   * served under the flag and answered, and after that extraction returns or throws or the formatter
   * throws, the attempt has ended "canceled".
   */
  lemma {:induction false} FlaggedTickCancels(
      maxAttempts: nat, steps: seq<Step>, states: seq<System>, a: nat, v: nat, b: nat, e: nat, k: nat)
    requires Run(maxAttempts, steps, states) && a < |steps| && k < |states[a].attempts|
    requires steps[a] == Ticked(k) && FreeToAsk(states[a].attempts[k])
    ensures Outstanding(states[a + 1], k) == 1 && Enabled(states[a + 1], Served(k))
    ensures AnsweredUnderFlag(steps, states, a, v, b, k) && StopsAttempt(steps, states, b, e, k) ==>
      EndedWith(states[e + 1], k, Canceled)
  {
    TickAsks(maxAttempts, steps, states, a, k);
    hide Apply, Enabled, EndedWith, FreeToAsk;
    if AnsweredUnderFlag(steps, states, a, v, b, k) && StopsAttempt(steps, states, b, e, k) {
      assert Cause(steps, states, b, k) by { assert ServedAt(steps, states, v, b, k); }
      hide Cause, Stops, Answers, Inv, FreeToAsk;
      assert CanceledVia(steps, states, b, e, e + 1, k);
      CanceledExactlyWhen(maxAttempts, steps, states, e + 1, k);
    }
  }

  lemma {:induction false} TickAsks(
      maxAttempts: nat, steps: seq<Step>, states: seq<System>, a: nat, k: nat)
    requires Run(maxAttempts, steps, states) && a < |steps| && k < |states[a].attempts|
    requires steps[a] == Ticked(k) && FreeToAsk(states[a].attempts[k])
    ensures Outstanding(states[a + 1], k) == 1 && Enabled(states[a + 1], Served(k))
  {
    RunKeepsInv(maxAttempts, steps, states, a);
    StepAsksExactlyWhen(states[a], steps[a], k);
    assert states[a + 1] == Apply(states[a], steps[a]);
    hide Inv, Apply;
  }

  /** The query under way after step `a` is served at `v`, while the flag is written, and answered at `b`. */
  ghost predicate AnsweredUnderFlag(
      steps: seq<Step>, states: seq<System>, a: nat, v: nat, b: nat, k: nat) {
    && a < v < b < |steps| && v < |states| && steps[v] == Served(k) && states[v].flag && steps[b] == Replied(k)
    && forall l :: a < l < b ==> !Answers(steps[l], k)
  }

  ghost predicate StopsAttempt(steps: seq<Step>, states: seq<System>, b: nat, e: nat, k: nat) {
    b < e < |steps| && e < |states| && Stops(steps[e]) && k + 1 == |states[e].attempts|
  }

  /** The queue's reaction to an outcome: a failure is retried while attempts remain, nothing else is. */
  lemma {:induction false} RecordedExactlyWhen(
      maxAttempts: nat, steps: seq<Step>, states: seq<System>, i: nat)
    requires Run(maxAttempts, steps, states) && i < |steps| && steps[i] == Recorded
    ensures Live(states[i]) && Last(states[i]).phase.Ending?
    ensures
      var outcome, job := Last(states[i]).phase.outcome, states[i + 1].job;
      && (job.Completed? <==> outcome.Finished?)
      && (job.Delayed? <==> outcome.Failure? && |states[i].attempts| < maxAttempts)
      && (outcome.Canceled? ==> job == Failed("canceled"))
      && (outcome.Failure? && |states[i].attempts| >= maxAttempts ==> job == Failed(outcome.reason))
    ensures |states[i + 1].attempts| == |states[i].attempts|
    ensures Last(states[i + 1]).phase == Over(Last(states[i]).phase.outcome)
  {
    SameBound(maxAttempts, steps, states, i);
    assert Enabled(states[i], steps[i]) && states[i + 1] == Apply(states[i], steps[i]);
  }

  /** A failed job carries the message of its last attempt. */
  ghost predicate FailedBy(s: System) {
    s.job.Failed? ==>
      && s.attempts != [] && Last(s).phase.Over?
      && (Last(s).phase.outcome == Canceled ==> s.job.reason == "canceled")
      && !Last(s).phase.outcome.Finished?
      && (Last(s).phase.outcome.Failure? ==> s.job.reason == Last(s).phase.outcome.reason)
  }

  lemma {:induction false} StepKeepsFailedBy(s: System, step: Step)
    requires Inv(s) && FailedBy(s) && Enabled(s, step)
    ensures FailedBy(Apply(s, step))
  {
    hide MonitorOk;
  }

  lemma {:induction false} RunKeepsFailedBy(maxAttempts: nat, steps: seq<Step>, states: seq<System>, j: nat)
    requires Run(maxAttempts, steps, states) && j < |states|
    ensures FailedBy(states[j])
  {
    hide Inv, Apply, Enabled;
    if j == 0 {
    } else {
      RunKeepsFailedBy(maxAttempts, steps, states, j - 1);
      RunKeepsInv(maxAttempts, steps, states, j - 1);
      StepKeepsFailedBy(states[j - 1], steps[j - 1]);
    }
  }

  /**
   * A job reports "canceled" exactly when its last attempt was canceled, or when it failed for good
   * with an ordinary error whose message happens to contain that word.
   */
  lemma {:induction false} ReportedCanceledExactlyWhen(
      maxAttempts: nat, steps: seq<Step>, states: seq<System>, j: nat)
    requires Run(maxAttempts, steps, states) && j < |states| && !states[j].job.Absent?
    ensures StatusOf(states[j].job) == CanceledStatus <==>
      || (states[j].attempts != [] && Last(states[j]).phase == Over(Canceled))
      || (states[j].job.Failed? && Contains(states[j].job.reason, "canceled")
          && states[j].attempts != [] && Last(states[j]).phase == Over(Failure(states[j].job.reason)))
  {
    hide Apply, Enabled, Contains, MonitorOk;
    RunKeepsFailedBy(maxAttempts, steps, states, j);
    RunKeepsInv(maxAttempts, steps, states, j);
    CanceledIsContained();
  }

  /** A completed job's last attempt finished. */
  ghost predicate CompletedBy(s: System) {
    s.job.Completed? ==> s.attempts != [] && Last(s).phase == Over(Finished)
  }

  lemma {:induction false} StepKeepsCompletedBy(s: System, step: Step)
    requires Inv(s) && CompletedBy(s) && Enabled(s, step)
    ensures CompletedBy(Apply(s, step))
  {
    hide MonitorOk;
  }

  lemma {:induction false} RunKeepsCompletedBy(maxAttempts: nat, steps: seq<Step>, states: seq<System>, j: nat)
    requires Run(maxAttempts, steps, states) && j < |states|
    ensures CompletedBy(states[j])
  {
    hide Inv, Apply, Enabled;
    if j == 0 {
    } else {
      RunKeepsCompletedBy(maxAttempts, steps, states, j - 1);
      RunKeepsInv(maxAttempts, steps, states, j - 1);
      StepKeepsCompletedBy(states[j - 1], steps[j - 1]);
    }
  }

  /** A text contains another when it is some text, that one, and some text again. */
  lemma {:induction false} ContainsExactlyWhen(s: string, part: string)
    ensures Contains(s, part) <==> exists a, b :: s == a + part + b
  {
    if Contains(s, part) {
      var i :| 0 <= i <= |s| && part <= s[i..];
      assert s == s[..i] + part + s[i..][|part|..];
    }
    if a, b :| s == a + part + b {
      assert s[|a|..] == part + b;
      assert part <= s[|a|..];
    }
  }

  /**
   * What a job reports in every run, by its attempts: running exactly while one is live, done exactly
   * when the last one finished, queued exactly before the first and between two attempts.
   */
  lemma {:induction false} ReportedExactlyWhen(maxAttempts: nat, steps: seq<Step>, states: seq<System>, j: nat)
    requires Run(maxAttempts, steps, states) && j < |states| && !states[j].job.Absent?
    ensures
      var s := states[j];
      && (StatusOf(s.job) == Running <==> Live(s))
      && (StatusOf(s.job) == Done <==> s.attempts != [] && Last(s).phase == Over(Finished))
      && (StatusOf(s.job) == Queued <==>
            !s.job.Failed? && (s.attempts == [] || (Last(s).phase.Over? && Last(s).phase.outcome.Failure?)))
      && (StatusOf(s.job) == Failing <==>
            s.job.Failed? && s.attempts != [] && Last(s).phase == Over(Failure(s.job.reason))
            && !Contains(s.job.reason, "canceled"))
  {
    hide Apply, Enabled, Contains, MonitorOk;
    RunKeepsFailedBy(maxAttempts, steps, states, j);
    RunKeepsCompletedBy(maxAttempts, steps, states, j);
    RunKeepsInv(maxAttempts, steps, states, j);
    CanceledIsContained();
  }

  predicate PastGate(p: Phase) { p.Formatting? || p == Ending(Finished) || p == Over(Finished) }

  lemma {:induction false} OnlyTheGateLeadsOn(s: System, step: Step, k: nat)
    requires Inv(s) && Enabled(s, step) && k < |Apply(s, step).attempts|
    requires PastGate(Apply(s, step).attempts[k].phase)
    requires k < |s.attempts| ==> !PastGate(s.attempts[k].phase)
    ensures step == ExtractReturned && k < |s.attempts| && k == |s.attempts| - 1
    ensures s.attempts[k].phase.Extracting? && !s.attempts[k].aborted
  {
    hide Inv, StatusOf, Record;
  }

  /** An attempt that finished passed the gate while its controller was not aborted. */
  lemma {:induction false} FinishedPassedTheGate(
      maxAttempts: nat, steps: seq<Step>, states: seq<System>, j: nat, k: nat)
    requires Run(maxAttempts, steps, states) && j < |states| && k < |states[j].attempts|
    requires PastGate(states[j].attempts[k].phase)
    ensures exists i :: GatePassed(steps, states, i, j, k)
  {
    hide Inv, Apply, Enabled, PastGate;
    if j == 0 {
    } else {
      RunKeepsInv(maxAttempts, steps, states, j - 1);
      var s := states[j - 1];
      if k < |s.attempts| && PastGate(s.attempts[k].phase) {
        FinishedPassedTheGate(maxAttempts, steps, states, j - 1, k);
        var i :| GatePassed(steps, states, i, j - 1, k);
        assert GatePassed(steps, states, i, j, k);
      } else {
        OnlyTheGateLeadsOn(s, steps[j - 1], k);
        assert GatePassed(steps, states, j - 1, j, k);
      }
    }
  }

  predicate GatePassed(steps: seq<Step>, states: seq<System>, i: int, j: int, k: int) {
    && 0 <= i < j <= |steps| && j < |states| && steps[i] == ExtractReturned
    && 0 <= k < |states[i].attempts| && k == |states[i].attempts| - 1
    && states[i].attempts[k].phase.Extracting? && !states[i].attempts[k].aborted
  }

  /** An attempt is started again only after an ordinary failure, and never more often than configured. */
  lemma {:induction false} RetriesFollowFailures(maxAttempts: nat, steps: seq<Step>, states: seq<System>, i: nat)
    requires Run(maxAttempts, steps, states) && i < |states|
    ensures |states[i].attempts| <= if maxAttempts == 0 then 1 else maxAttempts
    ensures forall k :: 0 <= k < |states[i].attempts| - 1 ==>
      states[i].attempts[k].phase.Over? && states[i].attempts[k].phase.outcome.Failure?
  {
    RunKeepsInv(maxAttempts, steps, states, i);
    SameBound(maxAttempts, steps, states, i);
  }

  lemma {:induction false} SameBound(maxAttempts: nat, steps: seq<Step>, states: seq<System>, i: nat)
    requires Run(maxAttempts, steps, states) && i < |states|
    ensures states[i].maxAttempts == maxAttempts
  {
    if i == 0 {
    } else {
      SameBound(maxAttempts, steps, states, i - 1);
    }
  }

  /** `cancel` answers true only if that caller removed the job or wrote the flag. */
  lemma {:induction false} AnswersAreBacked(maxAttempts: nat, steps: seq<Step>, states: seq<System>, i: nat, c: nat)
    requires Run(maxAttempts, steps, states) && i < |states|
    ensures Pc(states[i], c) == Answered(Removed) ==>
      exists j :: 0 <= j < i && steps[j] == RemoveDone(c, true) && states[j + 1].job.Absent?
    ensures Pc(states[i], c) == Answered(Flagged) ==>
      exists j :: 0 <= j < i && steps[j] == CancelMarked(c) && states[j + 1].flag && Pc(states[j], c).SawActive?
  {
    if i == 0 {
    } else {
      AnswersAreBacked(maxAttempts, steps, states, i - 1, c);
      assert states[i] == Apply(states[i - 1], steps[i - 1]);
    }
  }

  lemma {:induction false} AbsentStays(s: System, step: Step)
    requires Inv(s) && Enabled(s, step) && s.job.Absent?
    ensures Apply(s, step).job.Absent? && |Apply(s, step).attempts| == |s.attempts|
  {
  }

  /** After a removal the job is gone for good: no attempt is running and none ever starts again. */
  lemma {:induction false} RemovedForever(
      maxAttempts: nat, steps: seq<Step>, states: seq<System>, i: nat, j: nat, c: nat)
    requires Run(maxAttempts, steps, states) && i <= j < |states|
    requires Pc(states[i], c) == Answered(Removed)
    ensures states[j].job.Absent? && !Live(states[j]) && |states[j].attempts| == |states[i].attempts|
  {
    hide Apply, Enabled;
    RunKeepsInv(maxAttempts, steps, states, j);
    if j == i {
    } else {
      RemovedForever(maxAttempts, steps, states, i, j - 1, c);
      RunKeepsInv(maxAttempts, steps, states, j - 1);
      AbsentStays(states[j - 1], steps[j - 1]);
    }
  }

  predicate IsCause(step: Step) {
    step.CancelMarked? || step.SignalAborted? || step == Loaded(true)
  }

  /** No flag is written, no controller aborts and no positive answer is on its way. */
  ghost predicate Untouched(s: System) {
    && !s.flag
    && forall k :: 0 <= k < |s.attempts| ==>
         var a := s.attempts[k];
         !a.aborted && a.monitor.served != Some(true) && a.phase != Ending(Canceled) && a.phase != Over(Canceled)
  }

  lemma {:induction false} UntouchedStays(s: System, step: Step)
    requires Untouched(s) && Enabled(s, step) && !IsCause(step)
    ensures Untouched(Apply(s, step))
  {
  }

  /** Nothing is canceled by itself: without a written flag and without the queue's signal no controller aborts. */
  lemma {:induction false} NoCauseNoCancellation(maxAttempts: nat, steps: seq<Step>, states: seq<System>, i: nat)
    requires Run(maxAttempts, steps, states) && i < |states|
    requires forall j :: 0 <= j < i ==> !IsCause(steps[j])
    ensures Untouched(states[i])
  {
    hide Apply, Enabled;
    if i == 0 {
    } else {
      NoCauseNoCancellation(maxAttempts, steps, states, i - 1);
      UntouchedStays(states[i - 1], steps[i - 1]);
    }
  }

  lemma {:induction false} Extend(steps: seq<Step>, states: seq<System>, step: Step)
    returns (steps': seq<Step>, states': seq<System>)
    requires Run(1, steps, states) && Enabled(states[|steps|], step)
    ensures Run(1, steps', states')
    ensures |steps'| == |steps| + 1 && states'[|steps'|] == Apply(states[|steps|], step)
    ensures states'[|steps|] == states[|steps|]
  {
    steps', states' := steps + [step], states + [Apply(states[|steps|], step)];
  }

  /** The attempt of the run below while it extracts and no query is under way. */
  const Quiet := Attempt(Extracting, false, Monitor(false, false, 0, None))

  /** The same while its first flag query is under way. */
  const Polling := Quiet.(monitor := Monitor(false, true, 1, None))

  lemma {:induction false} ReachPolling() returns (steps: seq<Step>, states: seq<System>)
    ensures Run(1, steps, states) && states[|steps|] == System(Active, 1, false, [Polling], map[])
  {
    steps, states := [], [Initial(1)];
    steps, states := Extend(steps, states, Picked);
    assert states[|steps|] == System(Active, 1, false, [NewAttempt], map[]);
    steps, states := Extend(steps, states, Loaded(false));
  }

  lemma {:induction false} ReachQuiet() returns (steps: seq<Step>, states: seq<System>)
    ensures Run(1, steps, states) && states[|steps|] == System(Active, 1, false, [Quiet], map[])
  {
    steps, states := ReachPolling();
    steps, states := Extend(steps, states, Served(0));
    assert Last(states[|steps|]).monitor == Polling.monitor.(served := Some(false));
    steps, states := Extend(steps, states, Replied(0));
  }

  lemma {:induction false} ReachFlagged() returns (steps: seq<Step>, states: seq<System>)
    ensures Run(1, steps, states)
    ensures states[|steps|] == System(Active, 1, true, [Quiet], map[0 := Answered(Flagged)])
  {
    steps, states := ReachQuiet();
    steps, states := Extend(steps, states, CancelRequested(0));
    assert states[|steps|] == System(Active, 1, false, [Quiet], map[0 := Ready]);
    steps, states := Extend(steps, states, CancelLookedUp(0));
    assert states[|steps|] == System(Active, 1, false, [Quiet], map[0 := Found]);
    steps, states := Extend(steps, states, CancelReadState(0));
    assert states[|steps|] == System(Active, 1, false, [Quiet], map[0 := SawActive]);
    steps, states := Extend(steps, states, CancelMarked(0));
  }

  /** A written flag does not guarantee a cancellation: the attempt may pass the gate before the next poll. */
  lemma {:induction false} FlaggedJobMayComplete() returns (steps: seq<Step>, states: seq<System>)
    ensures Run(1, steps, states)
    ensures Pc(states[|steps|], 0) == Answered(Flagged) && states[|steps|].job == Completed
  {
    steps, states := ReachFlagged();
    steps, states := Extend(steps, states, ExtractReturned);
    assert states[|steps|].attempts == [Quiet.(phase := Formatting)];
    steps, states := Extend(steps, states, FormatReturned);
    assert Last(states[|steps|]).phase == Ending(Finished);
    steps, states := Extend(steps, states, Recorded);
  }

  // ---------------------------------------------------------------- refused although cancelable

  /** The states in which the use case starts a cancellation that can succeed. */
  predicate Cancelable(job: JobState) { job.Waiting? || job.Delayed? || job.Active? }

  predicate Refuses(s: System, step: Step, c: nat)
    requires Enabled(s, step)
  {
    !Pc(s, c).Answered? && Pc(Apply(s, step), c) == Answered(Refused)
  }

  ghost predicate ReadQueued(steps: seq<Step>, states: seq<System>, r: int, i: nat, c: nat) {
    && 0 <= r < i && r < |steps| && r < |states| && steps[r] == CancelReadState(c)
    && (states[r].job.Waiting? || states[r].job.Delayed?)
  }

  lemma {:induction false} SawQueuedHasRead(
      maxAttempts: nat, steps: seq<Step>, states: seq<System>, i: nat, c: nat)
    requires Run(maxAttempts, steps, states) && i < |states|
    requires Pc(states[i], c).SawQueued? || Pc(states[i], c).Removing?
    ensures exists r :: ReadQueued(steps, states, r, i, c)
  {
    if i == 0 {
    } else {
      var p: nat := i - 1;
      if Pc(states[p], c).SawQueued? || Pc(states[p], c).Removing? {
        SawQueuedHasRead(maxAttempts, steps, states, p, c);
        hide Apply, Enabled, Pc;
        var r :| ReadQueued(steps, states, r, p, c);
        assert ReadQueued(steps, states, r, i, c);
      } else {
        assert states[i] == Apply(states[p], steps[p]);
        assert ReadQueued(steps, states, p, i, c);
      }
    }
  }

  predicate PickedIn(steps: seq<Step>, p: int, r: nat, i: nat) { r <= p < i && p < |steps| && steps[p] == Picked }

  lemma {:induction false} ActiveWasPicked(
      maxAttempts: nat, steps: seq<Step>, states: seq<System>, r: nat, i: nat)
    requires Run(maxAttempts, steps, states) && r <= i < |states|
    requires !states[r].job.Active? && states[i].job.Active?
    ensures exists p :: PickedIn(steps, p, r, i)
  {
    var q: nat := i - 1;
    if states[q].job.Active? {
      hide Apply, Enabled;
      ActiveWasPicked(maxAttempts, steps, states, r, q);
      var p :| PickedIn(steps, p, r, q);
      assert PickedIn(steps, p, r, i);
    } else {
      assert states[i] == Apply(states[q], steps[q]);
      assert PickedIn(steps, q, r, i);
    }
  }

  lemma {:induction false} OnlyRemovalRefuses(s: System, step: Step, c: nat)
    requires Enabled(s, step) && Cancelable(s.job)
    ensures Refuses(s, step, c) <==> step == RemoveDone(c, false)
  {
  }

  lemma {:induction false} AfterQueuedRead(
      maxAttempts: nat, steps: seq<Step>, states: seq<System>, r: nat, i: nat, c: nat)
    requires Run(maxAttempts, steps, states) && i < |states| && ReadQueued(steps, states, r, i, c)
    ensures Pc(states[i], c).SawQueued? || Pc(states[i], c).Removing? || Pc(states[i], c).Answered?
  {
    var p: nat := i - 1;
    if p == r {
      assert states[i] == Apply(states[p], steps[p]);
    } else {
      assert ReadQueued(steps, states, r, p, c);
      AfterQueuedRead(maxAttempts, steps, states, r, p, c);
      assert states[i] == Apply(states[p], steps[p]);
    }
  }

  lemma {:induction false} SawActiveReadNoQueue(
      maxAttempts: nat, steps: seq<Step>, states: seq<System>, r: nat, i: nat, c: nat)
    requires Run(maxAttempts, steps, states) && i < |states| && Pc(states[i], c).SawActive?
    ensures !ReadQueued(steps, states, r, i, c)
  {
    if ReadQueued(steps, states, r, i, c) {
      AfterQueuedRead(maxAttempts, steps, states, r, i, c);
    }
  }

  lemma {:induction false} AnsweredWhileActive(s: System, step: Step, c: nat)
    requires Enabled(s, step) && s.job.Active?
    requires !Pc(s, c).Answered? && Pc(Apply(s, step), c).Answered?
    ensures Pc(Apply(s, step), c) == Answered(if Pc(s, c).Removing? then Refused else Flagged)
    ensures Pc(s, c).Removing? || Pc(s, c).SawActive?
  {
  }

  /**
   * In every run a caller that is answered while the job is active is refused exactly when it read a
   * queued state: the worker picked the job up in between. Else it has written the flag.
   */
  lemma {:induction false} RefusedWhileActive(
      maxAttempts: nat, steps: seq<Step>, states: seq<System>, i: nat, c: nat)
    requires Run(maxAttempts, steps, states) && i < |steps| && states[i].job.Active?
    requires !Pc(states[i], c).Answered? && Pc(states[i + 1], c).Answered?
    ensures Pc(states[i + 1], c) == Answered(Refused) <==> exists r: nat :: ReadQueued(steps, states, r, i, c)
    ensures Pc(states[i + 1], c) == Answered(Refused) || Pc(states[i + 1], c) == Answered(Flagged)
  {
    assert states[i + 1] == Apply(states[i], steps[i]);
    AnsweredWhileActive(states[i], steps[i], c);
    if Pc(states[i], c).Removing? {
      SawQueuedHasRead(maxAttempts, steps, states, i, c);
    } else {
      forall r: nat ensures !ReadQueued(steps, states, r, i, c) {
        SawActiveReadNoQueue(maxAttempts, steps, states, r, i, c);
      }
    }
  }

  /**
   * In every run a caller that is answered while the job is waiting, delayed or active is refused
   * exactly when it read a queued state and either the job is active, picked up in between, so that it
   * is neither removed nor flagged, or the removal of the queued job itself fails.
   */
  lemma {:induction false} RefusedWhileCancelable(
      maxAttempts: nat, steps: seq<Step>, states: seq<System>, i: nat, c: nat)
    requires Run(maxAttempts, steps, states) && i < |steps| && Cancelable(states[i].job)
    requires !Pc(states[i], c).Answered? && Pc(states[i + 1], c).Answered?
    ensures Refuses(states[i], steps[i], c) <==>
      && (exists r: nat :: ReadQueued(steps, states, r, i, c))
      && (states[i].job.Active? || steps[i] == RemoveDone(c, false))
    ensures Refuses(states[i], steps[i], c) <==> steps[i] == RemoveDone(c, false)
    ensures Refuses(states[i], steps[i], c) && states[i].job.Active? ==>
      exists r: nat, p :: ReadQueued(steps, states, r, i, c) && PickedIn(steps, p, r, i)
  {
    OnlyRemovalRefuses(states[i], steps[i], c);
    if states[i].job.Active? { RefusedWhileActive(maxAttempts, steps, states, i, c); }
    if steps[i] == RemoveDone(c, false) {
      SawQueuedHasRead(maxAttempts, steps, states, i, c);
      hide Apply;
      var r :| ReadQueued(steps, states, r, i, c);
      if states[i].job.Active? { ActiveWasPicked(maxAttempts, steps, states, r, i); }
    }
  }

  // ---------------------------------------------------------------- removed although it had ended

  predicate HasEnded(job: JobState) { job.Completed? || job.Failed? }

  /** Step `e` records the end of the job, between the caller's queued read and its removal. */
  ghost predicate EndIn(steps: seq<Step>, states: seq<System>, e: int, r: nat, i: nat) {
    && r < e < i && e < |steps| && e + 1 < |states| && steps[e] == Recorded
    && Live(states[e]) && Last(states[e]).phase.Ending? && HasEnded(states[e + 1].job)
  }

  lemma {:induction false} EndedStaysOrGone(s: System, step: Step)
    requires Inv(s) && Enabled(s, step) && HasEnded(s.job)
    ensures Apply(s, step).job == s.job || Apply(s, step).job.Absent?
  {
    hide MonitorOk, StatusOf;
  }

  lemma {:induction false} OnlyRecordingEnds(s: System, step: Step)
    requires Enabled(s, step) && !HasEnded(s.job) && HasEnded(Apply(s, step).job)
    ensures step == Recorded && Live(s) && Last(s).phase.Ending?
    ensures Apply(s, step).job.Completed? <==> Last(s).phase == Ending(Finished)
  {
    hide StatusOf;
  }

  lemma {:induction false} EndRemains(
      maxAttempts: nat, steps: seq<Step>, states: seq<System>, e: nat, i: nat)
    requires Run(maxAttempts, steps, states) && e <= i < |states| && HasEnded(states[e].job)
    ensures states[i].job == states[e].job || states[i].job.Absent?
  {
    hide Inv, Apply, Enabled;
    if i == e {
    } else {
      EndRemains(maxAttempts, steps, states, e, i - 1);
      RunKeepsInv(maxAttempts, steps, states, i - 1);
      if states[i - 1].job.Absent? {
        AbsentStays(states[i - 1], steps[i - 1]);
      } else {
        EndedStaysOrGone(states[i - 1], steps[i - 1]);
      }
    }
  }

  lemma {:induction false} EndWasRecorded(
      maxAttempts: nat, steps: seq<Step>, states: seq<System>, r: nat, i: nat) returns (e: nat)
    requires Run(maxAttempts, steps, states) && r <= i < |states|
    requires !HasEnded(states[r].job) && HasEnded(states[i].job)
    ensures r <= e < i && !HasEnded(states[e].job) && HasEnded(states[e + 1].job)
    ensures states[e + 1].job == states[i].job
  {
    hide Inv, Apply, Enabled;
    e := i - 1;
    if HasEnded(states[e].job) {
      RunKeepsInv(maxAttempts, steps, states, e);
      EndedStaysOrGone(states[e], steps[e]);
      e := EndWasRecorded(maxAttempts, steps, states, r, e);
    }
  }

  lemma {:induction false} RemovalReadQueued(
      maxAttempts: nat, steps: seq<Step>, states: seq<System>, i: nat, c: nat)
    requires Run(maxAttempts, steps, states) && i < |steps| && steps[i] == RemoveDone(c, true)
    ensures exists r: nat :: ReadQueued(steps, states, r, i, c)
  {
    assert Enabled(states[i], steps[i]);
    SawQueuedHasRead(maxAttempts, steps, states, i, c);
  }

  /**
   * In every run a successful removal meets a job that has ended exactly when, since the caller read a
   * queued state, its end was recorded and it was not evicted. It meets a completed job exactly when
   * the recorded attempt had finished.
   */
  lemma {:induction false} RemovedEndedExactlyWhen(
      maxAttempts: nat, steps: seq<Step>, states: seq<System>, i: nat, c: nat, r: nat)
    requires Run(maxAttempts, steps, states) && i < |steps| && steps[i] == RemoveDone(c, true)
    requires ReadQueued(steps, states, r, i, c)
    ensures HasEnded(states[i].job) <==> !states[i].job.Absent? && exists e :: EndIn(steps, states, e, r, i)
    ensures states[i].job.Completed? <==>
      !states[i].job.Absent?
      && exists e :: EndIn(steps, states, e, r, i) && Last(states[e]).phase == Ending(Finished)
  {
    hide Inv, Apply, Enabled;
    if HasEnded(states[i].job) {
      var e := EndWasRecorded(maxAttempts, steps, states, r, i);
      assert states[e + 1] == Apply(states[e], steps[e]);
      OnlyRecordingEnds(states[e], steps[e]);
      assert EndIn(steps, states, e, r, i);
    }
    forall e | EndIn(steps, states, e, r, i)
      ensures states[i].job == states[e + 1].job || states[i].job.Absent?
      ensures states[e + 1].job.Completed? <==> Last(states[e]).phase == Ending(Finished)
    {
      EndRemains(maxAttempts, steps, states, e + 1, i);
      RecordingFinishes(maxAttempts, steps, states, e);
    }
  }

  lemma {:induction false} RecordingFinishes(maxAttempts: nat, steps: seq<Step>, states: seq<System>, e: nat)
    requires Run(maxAttempts, steps, states) && e < |steps| && steps[e] == Recorded
    ensures Live(states[e]) && Last(states[e]).phase.Ending?
    ensures states[e + 1].job.Completed? <==> Last(states[e]).phase == Ending(Finished)
  {
    assert Enabled(states[e], steps[e]) && states[e + 1] == Apply(states[e], steps[e]);
  }

  lemma {:induction false} ReachRemoving() returns (steps: seq<Step>, states: seq<System>)
    ensures Run(1, steps, states)
    ensures states[|steps|] == System(Waiting, 1, false, [], map[0 := Removing])
  {
    steps, states := [], [Initial(1)];
    steps, states := Extend(steps, states, CancelRequested(0));
    assert states[|steps|] == System(Waiting, 1, false, [], map[0 := Ready]);
    steps, states := Extend(steps, states, CancelLookedUp(0));
    assert states[|steps|] == System(Waiting, 1, false, [], map[0 := Found]);
    steps, states := Extend(steps, states, CancelReadState(0));
    assert states[|steps|] == System(Waiting, 1, false, [], map[0 := SawQueued]);
    steps, states := Extend(steps, states, RemoveLookedUp(0));
  }

  /** The job is picked up between the state read and the removal: refused, active, and not flagged. */
  lemma {:induction false} LostRace() returns (steps: seq<Step>, states: seq<System>)
    ensures Run(1, steps, states)
    ensures Pc(states[|steps|], 0) == Answered(Refused) && states[|steps|].job.Active? && !states[|steps|].flag
  {
    steps, states := ReachRemoving();
    steps, states := Extend(steps, states, Picked);
    assert states[|steps|] == System(Active, 1, false, [NewAttempt], map[0 := Removing]);
    steps, states := Extend(steps, states, RemoveDone(0, false));
  }

  lemma {:induction false} ReachFormatting() returns (steps: seq<Step>, states: seq<System>)
    ensures Run(1, steps, states)
    ensures states[|steps|] == System(Active, 1, false, [Polling.(phase := Formatting)], map[0 := Removing])
  {
    steps, states := ReachRemoving();
    steps, states := Extend(steps, states, Picked);
    assert states[|steps|] == System(Active, 1, false, [NewAttempt], map[0 := Removing]);
    steps, states := Extend(steps, states, Loaded(false));
    assert states[|steps|] == System(Active, 1, false, [Polling], map[0 := Removing]);
    steps, states := Extend(steps, states, ExtractReturned);
  }

  lemma {:induction false} ReachCompleted() returns (steps: seq<Step>, states: seq<System>, done: Attempt)
    ensures Run(1, steps, states)
    ensures states[|steps|] == System(Completed, 1, false, [done], map[0 := Removing])
  {
    steps, states := ReachFormatting();
    done := Formatted(Polling.(phase := Formatting));
    steps, states := Extend(steps, states, FormatReturned);
    assert states[|steps|] == System(Active, 1, false, [done], map[0 := Removing]);
    steps, states := Extend(steps, states, Recorded);
    done := done.(phase := Over(Finished));
  }

  /** A caller can be answered that it removed the job although the job had completed meanwhile. */
  lemma {:induction false} RemovedAfterCompletion() returns (steps: seq<Step>, states: seq<System>, i: nat)
    ensures Run(1, steps, states) && i < |steps|
    ensures states[i].job == Completed && Pc(states[i + 1], 0) == Answered(Removed)
  {
    var done;
    steps, states, done := ReachCompleted();
    i := |steps|;
    var before := states[i];
    steps, states := Extend(steps, states, RemoveDone(0, true));
    assert states[i] == before;
  }

  // ---------------------------------------------------------------- the API's code

  /** The next step of a caller that nobody interferes with. */
  function NextOf(s: System, c: nat): Step {
    match Pc(s, c)
    case Ready => CancelLookedUp(c)
    case Found => CancelReadState(c)
    case SawQueued => RemoveLookedUp(c)
    case Removing => RemoveDone(c, !s.job.Active?)
    case SawActive => CancelMarked(c)
    case _ => CancelRequested(c)
  }

  function Rank(pc: Caller): nat {
    match pc
    case Idle => 5
    case Ready => 4
    case Found => 3
    case SawQueued => 2
    case SawActive => 1
    case Removing => 1
    case Answered(_) => 0
  }

  /** The caller's steps, one after another, until it is answered. */
  function Alone(s: System, c: nat): System
    decreases Rank(Pc(s, c))
  {
    if Pc(s, c).Answered? then s else Alone(Apply(s, NextOf(s, c)), c)
  }

  lemma {:induction false} AloneStep(s: System, c: nat, t: System)
    requires !Pc(s, c).Answered? && t == Apply(s, NextOf(s, c))
    ensures Alone(s, c) == if Pc(t, c).Answered? then t else Alone(t, c)
  {
  }

  /** A job, its flag and one caller, with no attempt to interfere. */
  function Solo(job: JobState, flag: bool, pc: Caller): System { System(job, 0, flag, [], map[0 := pc]) }

  lemma {:induction false} QueuedCancelAlone(job: JobState, flag: bool)
    requires job.Waiting? || job.Delayed?
    ensures Alone(Solo(job, flag, Found), 0) == Solo(Absent, flag, Answered(Removed))
  {
    hide Alone;
    AloneStep(Solo(job, flag, Found), 0, Solo(job, flag, SawQueued));
    AloneStep(Solo(job, flag, SawQueued), 0, Solo(job, flag, Removing));
    AloneStep(Solo(job, flag, Removing), 0, Solo(Absent, flag, Answered(Removed)));
  }

  /** What a caller without interference does: remove a queued job, flag an active one, refuse the rest. */
  lemma {:induction false} CancelAlone(job: JobState, flag: bool)
    ensures Alone(Solo(job, flag, Ready), 0) ==
      if job.Waiting? || job.Delayed? then Solo(Absent, flag, Answered(Removed))
      else if job.Active? then Solo(job, true, Answered(Flagged))
      else Solo(job, flag, Answered(Refused))
  {
    hide Alone;
    if job.Absent? {
      AloneStep(Solo(job, flag, Ready), 0, Solo(job, flag, Answered(Refused)));
    } else {
      AloneStep(Solo(job, flag, Ready), 0, Solo(job, flag, Found));
      if job.Waiting? || job.Delayed? {
        QueuedCancelAlone(job, flag);
      } else if job.Active? {
        AloneStep(Solo(job, flag, Found), 0, Solo(job, flag, SawActive));
        AloneStep(Solo(job, flag, SawActive), 0, Solo(job, true, Answered(Flagged)));
      } else {
        AloneStep(Solo(job, flag, Found), 0, Solo(job, flag, Answered(Refused)));
      }
    }
  }

  /** The queue as the API process sees it, for one job. */
  class BullMQQueue {
    var job: JobState
    var flag: bool

    function View(pc: Caller): System
      reads this
    {
      Solo(job, flag, pc)
    }

    constructor (job: JobState, flag: bool)
      ensures this.job == job && this.flag == flag
    {
      this.job, this.flag := job, flag;
    }

    method RemoveJob() returns (removed: bool)
      modifies this
      ensures removed <==> !old(job).Absent? && !old(job).Active?
      ensures job == (if removed then Absent else old(job)) && flag == old(flag)
    {
      if job.Absent? || job.Active? {
        return false;
      }
      job := Absent;
      return true;
    }

    /** `cancel` without interference takes the steps of a caller of the system, in the same order. */
    method Cancel() returns (answer: Answer)
      modifies this
      ensures View(Answered(answer)) == Alone(old(View(Ready)), 0)
      ensures answer.Removed? <==> old(job).Waiting? || old(job).Delayed?
      ensures answer.Flagged? <==> old(job).Active?
      ensures job == (if answer.Removed? then Absent else old(job)) && flag == (answer.Flagged? || old(flag))
    {
      hide Alone;
      CancelAlone(job, flag);
      if job.Absent? {
        return Refused;
      }
      var state := job;
      if state.Waiting? || state.Delayed? {
        var removed := RemoveJob();
        if removed {
          return Removed;
        }
      }
      if state.Active? {
        flag := true;
        return Flagged;
      }
      return Refused;
    }

    /** `CancelJobUseCase.execute`: the reported status, None when there is no such job. */
    method CancelJob() returns (status: Option<Status>, success: bool)
      modifies this
      ensures old(job).Absent? ==> status == None && !success && job.Absent? && flag == old(flag)
      ensures success <==> old(job).Waiting? || old(job).Delayed? || old(job).Active?
      ensures success ==> status == Some(CanceledStatus)
      ensures success ==> if old(job).Active? then job == old(job) && flag else job.Absent? && flag == old(flag)
      ensures !success && !old(job).Absent? ==>
        status == Some(StatusOf(old(job))) && job == old(job) && flag == old(flag)
    {
      if job.Absent? {
        return None, false;
      }
      var before := StatusOf(job);
      if before == Done || before == CanceledStatus {
        return Some(before), false;
      }
      var answer := Cancel();
      if !answer.Refused? {
        return Some(CanceledStatus), true;
      }
      return Some(if job.Absent? then Failing else StatusOf(job)), false;
    }
  }

  // ---------------------------------------------------------------- the worker's code

  /** What the worker sees of an attempt: not the flag value on its way, nor whether the queue has recorded it. */
  function Seen(a: Attempt): Attempt {
    a.(phase := if a.phase.Over? then Ending(a.phase.outcome) else a.phase, monitor := a.monitor.(served := None))
  }

  /** What each step does to an attempt that has been loaded, as the worker sees it. */
  lemma {:induction false} StepOfAttempt(s: System, step: Step, k: nat)
    requires Inv(s) && Enabled(s, step) && k < |s.attempts| && !s.attempts[k].phase.Loading?
    ensures k < |Apply(s, step).attempts| && !Apply(s, step).attempts[k].phase.Loading?
    ensures var a, b, last := Seen(s.attempts[k]), Seen(Apply(s, step).attempts[k]), k + 1 == |s.attempts|;
      match step
      case ExtractReturned => b == if last then Extracted(a) else a
      case ExtractThrew(reason) => b == if last then Throw(a, reason) else a
      case FormatReturned => b == if last then Formatted(a) else a
      case FormatThrew(reason) => b == if last then Throw(a, reason) else a
      case Ticked(c) => b == if c == k then Check(a) else a
      case Replied(c) =>
        && (c == k ==> s.attempts[k].monitor.served.Some? && a.monitor.outstanding > 0)
        && b == if c == k then Reply(a, s.attempts[k].monitor.served.value) else a
      case ReplyLost(c) =>
        && (c == k ==> a.monitor.outstanding > 0)
        && b == if c == k then Reply(a, false) else a
      case SignalAborted(c) => b == if c == k then Abort(a) else a
      case _ => b == a
  {
    assert MonitorOk(s.attempts[k]);
    hide Inv, StatusOf, Record;
  }

  /** The state that one call of `process` keeps: the controller, the monitor's variables, the phase. */
  class AttemptRun {
    var phase: Phase
    var aborted: bool
    var stopped: bool
    var inFlight: bool
    var outstanding: nat

    /** The attempt as the transition system sees it; the flag value on its way is not known here. */
    ghost function View(): Attempt
      reads this
    {
      Attempt(phase, aborted, Monitor(stopped, inFlight, outstanding, None))
    }

    constructor (signalAborted: bool)
      ensures View() == Begin(NewAttempt, signalAborted)
    {
      phase, aborted := Extracting, signalAborted;
      stopped, inFlight, outstanding := false, false, 0;
      new;
      CheckCancellation();
    }

    method CheckCancellation()
      modifies this
      ensures View() == Check(old(View()))
    {
      if stopped || inFlight || aborted {
        return;
      }
      inFlight := true;
      outstanding := outstanding + 1;
    }

    method StopMonitor()
      modifies `stopped
      ensures View() == old(View()).(monitor := Stop(old(View()).monitor))
    {
      if stopped {
        return;
      }
      stopped := true;
    }

    method QueryAnswered(canceled: bool)
      requires outstanding > 0
      modifies this
      ensures View() == Reply(old(View()), canceled)
    {
      outstanding := outstanding - 1;
      if canceled {
        aborted := true;
        StopMonitor();
      }
      inFlight := false;
    }

    method SignalFired()
      modifies this
      ensures View() == Abort(old(View()))
    {
      if !aborted {
        aborted := true;
        StopMonitor();
      }
    }

    method ExtractionReturned()
      modifies this
      ensures View() == Extracted(old(View()))
    {
      if aborted {
        Catch("Job canceled during formatting");
      } else {
        phase := Formatting;
      }
    }

    method FormattingReturned()
      modifies this
      ensures View() == Formatted(old(View()))
    {
      phase := Ending(Finished);
      StopMonitor();
    }

    /** catch and finally */
    method Catch(reason: string)
      modifies this
      ensures View() == Throw(old(View()), reason)
    {
      if aborted {
        phase := Ending(Canceled);
      } else {
        phase := Ending(Failure(reason));
      }
      StopMonitor();
    }

    /**
     * The object of attempt `k` through the rest of a run: every step that concerns the attempt is one
     * of the calls above, in the order of the run, and the object ends as the attempt does.
     */
    method Follow(maxAttempts: nat, steps: seq<Step>, states: seq<System>, start: nat, k: nat)
      requires Run(maxAttempts, steps, states) && start < |states|
      requires k < |states[start].attempts| && !states[start].attempts[k].phase.Loading?
      requires View() == Seen(states[start].attempts[k])
      modifies this
      ensures k < |states[|steps|].attempts| && View() == Seen(states[|steps|].attempts[k])
    {
      hide Inv, Apply, Enabled;
      var i := start;
      while i < |steps|
        invariant start <= i <= |steps|
        invariant k < |states[i].attempts| && !states[i].attempts[k].phase.Loading?
        invariant View() == Seen(states[i].attempts[k])
      {
        ghost var s := states[i];
        RunKeepsInv(maxAttempts, steps, states, i);
        StepOfAttempt(s, steps[i], k);
        var last := k + 1 == |states[i].attempts|;
        match steps[i] {
          case ExtractReturned => if last { ExtractionReturned(); }
          case ExtractThrew(reason) => if last { Catch(reason); }
          case FormatReturned => if last { FormattingReturned(); }
          case FormatThrew(reason) => if last { Catch(reason); }
          case Ticked(c) => if c == k { CheckCancellation(); }
          case Replied(c) => if c == k { QueryAnswered(states[i].attempts[k].monitor.served.value); }
          case ReplyLost(c) => if c == k { QueryAnswered(false); }
          case SignalAborted(c) => if c == k { SignalFired(); }
          case _ =>
        }
        i := i + 1;
      }
    }
  }
}
