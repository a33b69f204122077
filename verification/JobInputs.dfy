/** A job and its uploaded input. */
module JobInputs {
  // The worker's attempts, the finally block that deletes the input file, and everybody else's use of the temp input
  // store, as interleaved steps. An attempt that fails in the ordinary way is retried with the same payload, whose
  // input the finally block has deleted.
  import opened Text
  import Job = JobLifecycle
  import Store = TempInputStore

  /** `ref` names the job's input; `tried` says that the current attempt is inside the try block. */
  datatype State = State(job: Job.System, store: Store.State, ref: nat, tried: bool)

  datatype Step =
    | OfJob(step: Job.Step)
    | Finally(unlinked: bool)      // the finally block deletes the input; a failing unlink is ignored
    | OfStore(other: Store.Step)   // other requests, other jobs, cleanups

  /** What a step does to the store; a step that leaves it alone is a tick of no time. */
  function OnStore(s: State, step: Step): Store.Step {
    match step
    case OfJob(_) => Store.Ticked(0)
    case Finally(unlinked) => if unlinked then Store.Deleted(s.ref) else Store.Ticked(0)
    case OfStore(other) => other
  }

  /** The outcome of an attempt reaches the queue only after its finally block. */
  predicate Enabled(s: State, step: Step) {
    && Store.Enabled(s.store, OnStore(s, step))
    && match step
       case OfJob(of) => Job.Enabled(s.job, of) && (of.Recorded? ==> !s.tried)
       case Finally(_) => s.tried && Job.Live(s.job) && Job.Last(s.job).phase.Ending?
       case OfStore(_) => true
  }

  predicate EntersTry(step: Step) { step.OfJob? && step.step.Loaded? }

  /** Loading happens before the try block, so an attempt that fails there deletes nothing. */
  function Apply(size: nat -> nat, s: State, step: Step): State
    requires Enabled(s, step)
  {
    State(
      if step.OfJob? then Job.Apply(s.job, step.step) else s.job,
      Store.Apply(size, s.store, OnStore(s, step)),
      s.ref,
      EntersTry(step) || (s.tried && !step.Finally?))
  }

  predicate Present(s: State) { s.ref in s.store.files }

  /** The input has been uploaded, the job enqueued. */
  ghost predicate Initial(maxAttempts: nat, s: State) {
    s.job == Job.Initial(maxAttempts) && Store.Fresh(s.store) && Present(s) && !s.tried
  }

  /** As in the store's runs, at most `k` saves are under way at once. */
  ghost predicate Run(size: nat -> nat, k: nat, maxAttempts: nat, steps: seq<Step>, states: seq<State>) {
    && |states| == |steps| + 1 && Initial(maxAttempts, states[0])
    && (forall i :: 0 <= i < |steps| ==>
          Enabled(states[i], steps[i]) && states[i + 1] == Apply(size, states[i], steps[i]))
    && (forall i :: 0 <= i < |states| ==> |Store.InFlightIds(states[i].store)| <= k)
  }

  // ---------------------------------------------------------------- invariant

  /** Inside the try block the attempt is live and loaded, and outside it is loading or about to be recorded. */
  ghost predicate Inv(s: State) {
    && Job.Inv(s.job)
    && (s.tried ==> Job.Live(s.job) && !Job.Last(s.job).phase.Loading?)
    && s.ref !in s.store.saves && s.ref < s.store.next
  }

  lemma {:induction false} JobStepKeepsTried(s: Job.System, step: Job.Step)
    requires Job.Inv(s) && Job.Enabled(s, step)
    ensures step.Loaded? || (Job.Live(s) && !Job.Last(s).phase.Loading? && !step.Recorded?) ==>
      Job.Live(Job.Apply(s, step)) && !Job.Last(Job.Apply(s, step)).phase.Loading?
  {
    hide Job.StatusOf, Job.Record, Job.MonitorOk;
  }

  lemma {:induction false} StepKeepsInv(size: nat -> nat, s: State, step: Step)
    requires Inv(s) && Enabled(s, step)
    ensures Inv(Apply(size, s, step))
  {
    hide Job.Inv, Job.Apply, Job.Enabled, Job.Live;
    if step.OfJob? {
      Job.StepKeepsInv(s.job, step.step);
      JobStepKeepsTried(s.job, step.step);
    }
  }

  lemma {:induction false} RunKeepsInv(
      size: nat -> nat, k: nat, maxAttempts: nat, steps: seq<Step>, states: seq<State>, i: nat)
    requires Run(size, k, maxAttempts, steps, states) && i < |states|
    ensures Inv(states[i]) && states[i].ref == states[0].ref
  {
    if i == 0 {
    } else {
      RunKeepsInv(size, k, maxAttempts, steps, states, i - 1);
      hide Inv, Enabled;
      StepKeepsInv(size, states[i - 1], steps[i - 1]);
    }
  }

  /** The worker's steps leave the store alone, and others leave the worker alone; only the finally block does both. */
  lemma {:induction false} PartsAreApart(size: nat -> nat, s: State, step: Step)
    requires Enabled(s, step)
    ensures step.OfJob? || step == Finally(false) ==> Apply(size, s, step).store == s.store
    ensures step.OfStore? ==> Apply(size, s, step).job == s.job && Apply(size, s, step).tried == s.tried
    ensures step.Finally? ==> Apply(size, s, step).job == s.job && !Apply(size, s, step).tried
  {
    hide Job.Apply, Job.Enabled;
  }

  // ---------------------------------------------------------------- when the input goes

  /** A step of somebody else after which the input is gone. */
  predicate TakenByOthers(size: nat -> nat, s: State, step: Step)
    requires Enabled(s, step)
  {
    step.OfStore? && Present(s) && !Present(Apply(size, s, step))
  }

  lemma {:induction false} StepKeepsInput(size: nat -> nat, s: State, step: Step)
    requires Inv(s) && Enabled(s, step)
    ensures Present(Apply(size, s, step)) <==>
      Present(s) && step != Finally(true) && !TakenByOthers(size, s, step)
  {
    hide Job.Inv, Job.Apply, Job.Enabled;
  }

  /** In every run the input is there exactly while no finally block and nobody else has deleted it. */
  lemma {:induction false} PresentUntilDeleted(
      size: nat -> nat, k: nat, maxAttempts: nat, steps: seq<Step>, states: seq<State>, i: nat)
    requires Run(size, k, maxAttempts, steps, states) && i < |states|
    ensures Present(states[i]) <==>
      forall d :: 0 <= d < i ==> steps[d] != Finally(true) && !TakenByOthers(size, states[d], steps[d])
  {
    if i == 0 {
    } else {
      var p: nat := i - 1;
      PresentUntilDeleted(size, k, maxAttempts, steps, states, p);
      RunKeepsInv(size, k, maxAttempts, steps, states, p);
      hide Inv, TakenByOthers, Present;
      StepKeepsInput(size, states[p], steps[p]);
    }
  }

  /** The finally block of the attempt that entered its try block at step `l`. */
  predicate FinallyOf(steps: seq<Step>, l: int, f: int) {
    0 <= l < f < |steps| && EntersTry(steps[l]) && steps[f].Finally? && forall m :: l < m < f ==> !steps[m].Finally?
  }

  /** An attempt that entered its try block has gone through its finally block once a state is outside of one. */
  lemma {:induction false} FinallyFollows(
      size: nat -> nat, k: nat, maxAttempts: nat, steps: seq<Step>, states: seq<State>, l: nat, m: nat, i: nat)
    returns (f: nat)
    requires Run(size, k, maxAttempts, steps, states) && l < m <= i < |states|
    requires EntersTry(steps[l]) && states[m].tried && !states[i].tried
    requires forall d :: l < d < m ==> !steps[d].Finally?
    ensures FinallyOf(steps, l, f) && f < i
    decreases i - m
  {
    hide Enabled, Present;
    if steps[m].Finally? {
      f := m;
    } else {
      f := FinallyFollows(size, k, maxAttempts, steps, states, l, m + 1, i);
    }
  }

  lemma {:induction false} FinallyWasEntered(
      size: nat -> nat, k: nat, maxAttempts: nat, steps: seq<Step>, states: seq<State>, i: nat)
    returns (l: nat)
    requires Run(size, k, maxAttempts, steps, states) && i < |states| && states[i].tried
    ensures l < i && EntersTry(steps[l]) && forall m :: l < m < i ==> !steps[m].Finally?
  {
    hide Enabled, Present;
    l := i - 1;
    if !EntersTry(steps[l]) {
      l := FinallyWasEntered(size, k, maxAttempts, steps, states, l);
    }
  }

  // ---------------------------------------------------------------- does a retry find its input?

  /** The attempt that entered its try block at `l` has left the input where it was. */
  ghost predicate LeftInput(steps: seq<Step>, l: int, i: nat) {
    exists f :: FinallyOf(steps, l, f) && f < i && steps[f] == Finally(false)
  }

  /** No attempt is inside its try block when one enters it. */
  lemma {:induction false} EntersFromOutside(s: State, step: Step)
    requires Inv(s) && Enabled(s, step) && EntersTry(step)
    ensures !s.tried
  {
    hide Job.Inv;
  }

  lemma {:induction false} LeavesOrDeletes(
      size: nat -> nat, k: nat, maxAttempts: nat, steps: seq<Step>, states: seq<State>, i: nat)
    requires Run(size, k, maxAttempts, steps, states) && i < |states| && !states[i].tried
    ensures (forall l :: 0 <= l < i && EntersTry(steps[l]) ==> LeftInput(steps, l, i)) <==>
      forall d :: 0 <= d < i ==> steps[d] != Finally(true)
  {
    hide Present;
    forall l | 0 <= l < i && EntersTry(steps[l])
      ensures exists f :: FinallyOf(steps, l, f) && f < i
    {
      var f := FinallyFollows(size, k, maxAttempts, steps, states, l, l + 1, i);
    }
    forall d | 0 <= d < i && steps[d] == Finally(true)
      ensures exists l :: 0 <= l < i && EntersTry(steps[l]) && !LeftInput(steps, l, i)
    {
      var l := FinallyWasEntered(size, k, maxAttempts, steps, states, d);
      assert FinallyOf(steps, l, d);
    }
  }

  /**
   * In every run an attempt that enters its try block finds the input exactly when every attempt that
   * entered it before failed to unlink the file and nobody else has deleted it. So, when unlinking
   * works and nobody else interferes, exactly when all attempts before it failed while loading.
   */
  lemma {:induction false} RetryFindsInput(
      size: nat -> nat, k: nat, maxAttempts: nat, steps: seq<Step>, states: seq<State>, i: nat)
    requires Run(size, k, maxAttempts, steps, states) && i < |steps| && EntersTry(steps[i])
    ensures Present(states[i]) <==>
      && (forall l :: 0 <= l < i && EntersTry(steps[l]) ==> LeftInput(steps, l, i))
      && (forall d :: 0 <= d < i ==> !TakenByOthers(size, states[d], steps[d]))
    ensures (forall d :: 0 <= d < i ==> steps[d] != Finally(false) && !TakenByOthers(size, states[d], steps[d])) ==>
      (Present(states[i]) <==> forall l :: 0 <= l < i ==> !EntersTry(steps[l]))
  {
    RunKeepsInv(size, k, maxAttempts, steps, states, i);
    EntersFromOutside(states[i], steps[i]);
    PresentUntilDeleted(size, k, maxAttempts, steps, states, i);
    LeavesOrDeletes(size, k, maxAttempts, steps, states, i);
    hide Inv, Enabled, Apply, Present, TakenByOthers;
  }

  // ---------------------------------------------------------------- who else deletes

  lemma {:induction false} StoreRun(
      size: nat -> nat, k: nat, maxAttempts: nat, steps: seq<Step>, states: seq<State>)
    returns (storeSteps: seq<Store.Step>, stores: seq<Store.State>)
    requires Run(size, k, maxAttempts, steps, states)
    ensures Store.Run(size, k, storeSteps, stores)
    ensures |storeSteps| == |steps| && forall d :: 0 <= d < |steps| ==> storeSteps[d] == OnStore(states[d], steps[d])
    ensures |stores| == |states| && forall d :: 0 <= d < |states| ==> stores[d] == states[d].store
  {
    storeSteps := seq(|steps|, d requires 0 <= d < |steps| => OnStore(states[d], steps[d]));
    stores := seq(|states|, d requires 0 <= d < |states| => states[d].store);
    hide Store.Apply, OnStore;
  }

  /** Others take the input only by an explicit delete of it, or in a cleanup that finds it older than the TTL. */
  lemma {:induction false} OthersTakeDeletedOrExpired(
      size: nat -> nat, k: nat, maxAttempts: nat, steps: seq<Step>, states: seq<State>, d: nat)
    requires Run(size, k, maxAttempts, steps, states) && d < |steps| && TakenByOthers(size, states[d], steps[d])
    ensures
      || steps[d] == OfStore(Store.Deleted(states[d].ref))
      || (steps[d].other.CleanupUnlinked?
          && states[d].store.clock - states[d].store.files[states[d].ref] > Store.FILE_TTL_MS)
  {
    var storeSteps, stores := StoreRun(size, k, maxAttempts, steps, states);
    var s := states[d];
    if s.store.clock - s.store.files[s.ref] <= Store.FILE_TTL_MS && storeSteps[d] != Store.Deleted(s.ref) {
      Store.FreshFilesSurvive(size, k, storeSteps, stores, d, s.ref);
    }
  }

  // ---------------------------------------------------------------- a retry without its input

  lemma {:induction false} Extend(size: nat -> nat, steps: seq<Step>, states: seq<State>, step: Step)
    returns (steps': seq<Step>, states': seq<State>)
    requires Run(size, 0, 2, steps, states) && Enabled(states[|steps|], step)
    requires states[|steps|].store.saves == map[] && !step.OfStore?
    ensures Run(size, 0, 2, steps', states') && |states'| == |states| + 1 && steps' == steps + [step]
    ensures states'[0] == states[0] && states'[|steps|] == states[|steps|]
    ensures states'[|steps'|] == Apply(size, states[|steps|], step)
  {
    var t := Apply(size, states[|steps|], step);
    assert Store.InFlightIds(t.store) == {};
    hide Apply, Enabled;
    steps', states' := steps + [step], states + [t];
  }

  lemma {:induction false} ExtendJob(size: nat -> nat, steps: seq<Step>, states: seq<State>, step: Job.Step)
    returns (steps': seq<Step>, states': seq<State>)
    requires Run(size, 0, 2, steps, states) && states[|steps|].store.saves == map[]
    requires Job.Enabled(states[|steps|].job, step) && (step.Recorded? ==> !states[|steps|].tried)
    ensures Run(size, 0, 2, steps', states') && |states'| == |states| + 1 && steps' == steps + [OfJob(step)]
    ensures states'[0] == states[0] && states'[|steps|] == states[|steps|]
    ensures
      var s := states[|steps|];
      states'[|steps'|] == State(Job.Apply(s.job, step), s.store, s.ref, step.Loaded? || s.tried)
  {
    hide Job.Apply, Job.Enabled;
    assert Enabled(states[|steps|], OfJob(step));
    steps', states' := Extend(size, steps, states, OfJob(step));
  }

  /** The store with the input of the job and no other file; empty when the input is deleted. */
  function Holding(input: bool): Store.State {
    Store.State(if input then map[0 := 0] else map[], map[], map[], 0, 0, 1)
  }

  const Quiet := Job.NewAttempt.(phase := Job.Extracting, monitor := Job.Monitor(false, true, 1, None))

  const Thrown := Quiet.(phase := Job.Ending(Job.Failure("")), monitor := Job.Stop(Quiet.monitor))

  const Made := Thrown.(phase := Job.Over(Job.Failure("")))

  /** The job during its first attempt. */
  function First(a: Job.Attempt): Job.System { Job.System(Job.Active, 2, false, [a], map[]) }

  /** The job after it. */
  function Between(job: Job.JobState): Job.System { Job.System(job, 2, false, [Made], map[]) }

  /** The job during its second attempt. */
  const Second := Job.System(Job.Active, 2, false, [Made, Job.NewAttempt], map[])

  predicate Leads(s: Job.System, step: Job.Step, t: Job.System) { Job.Enabled(s, step) && Job.Apply(s, step) == t }

  lemma {:induction false} FirstAttempt()
    ensures Leads(Job.Initial(2), Job.Picked, First(Job.NewAttempt))
    ensures Leads(First(Job.NewAttempt), Job.Loaded(false), First(Quiet))
    ensures Leads(First(Quiet), Job.ExtractThrew(""), First(Thrown))
  {
  }

  lemma {:induction false} SecondAttempt()
    ensures Leads(First(Thrown), Job.Recorded, Between(Job.Delayed))
    ensures Leads(Between(Job.Delayed), Job.DelayElapsed, Between(Job.Waiting))
    ensures Leads(Between(Job.Waiting), Job.Picked, Second)
    ensures Job.Enabled(Second, Job.Loaded(false))
  {
  }

  lemma {:induction false} Enqueued(size: nat -> nat, states: seq<State>)
    requires states == [State(Job.Initial(2), Holding(true), 0, false)]
    ensures Run(size, 0, 2, [], states)
  {
    assert Store.InFlightIds(Holding(true)) == {};
  }

  lemma {:induction false} InputDeleted(size: nat -> nat, s: State)
    requires s == State(First(Thrown), Holding(true), 0, true)
    ensures Enabled(s, Finally(true)) && Apply(size, s, Finally(true)) == State(First(Thrown), Holding(false), 0, false)
  {
    assert Holding(true).files - {0} == Holding(false).files;
  }

  lemma {:induction false} ReachFinally(size: nat -> nat) returns (steps: seq<Step>, states: seq<State>)
    ensures Run(size, 0, 2, steps, states) && |states| == |steps| + 1
    ensures forall d :: 0 <= d < |steps| ==> !steps[d].OfStore?
    ensures states[0].store == Holding(true) && states[0].ref == 0
    ensures states[|steps|] == State(First(Thrown), Holding(false), 0, false)
  {
    steps, states := [], [State(Job.Initial(2), Holding(true), 0, false)];
    Enqueued(size, states);
    FirstAttempt();
    hide Run, Apply, Enabled, Job.Apply, Job.Enabled;
    steps, states := ExtendJob(size, steps, states, Job.Picked);
    steps, states := ExtendJob(size, steps, states, Job.Loaded(false));
    steps, states := ExtendJob(size, steps, states, Job.ExtractThrew(""));
    InputDeleted(size, states[|steps|]);
    steps, states := Extend(size, steps, states, Finally(true));
  }

  /** A retry without its input: the first attempt threw, and nobody but its finally block used the store. */
  lemma {:induction false} RetryLosesInput(size: nat -> nat) returns (steps: seq<Step>, states: seq<State>, i: nat)
    ensures Run(size, 0, 2, steps, states) && i < |steps| && i < |states| && EntersTry(steps[i])
    ensures Present(states[0]) && !Present(states[i]) && |states[i].job.attempts| == 2
    ensures forall d :: 0 <= d < |steps| ==> !steps[d].OfStore?
  {
    steps, states := ReachFinally(size);
    SecondAttempt();
    hide Run, Job.Apply, Job.Enabled;
    steps, states := ExtendJob(size, steps, states, Job.Recorded);
    steps, states := ExtendJob(size, steps, states, Job.DelayElapsed);
    steps, states := ExtendJob(size, steps, states, Job.Picked);
    i := |steps|;
    assert states[i] == State(Second, Holding(false), 0, false);
    steps, states := ExtendJob(size, steps, states, Job.Loaded(false));
  }
}
