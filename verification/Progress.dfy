/** The progress of a job. */
module Progress {
  // The step layout of a pipeline and the tracker that its events drive.
  import opened Text

  datatype Category = Collecting | Extracting | Finalizing

  datatype Status = Pending | CollectingNow | ExtractingNow | Formatting | Completed | Failed | Canceled

  datatype Checkpoint =
    | JobPickup | ImagesLoaded | OcrStarted | OcrProgress1 | OcrProgress2 | OcrProgress3
    | FormattingStarted | Finished

  /** `CHECKPOINT_PROGRESS` */
  function Percent(c: Checkpoint): nat {
    match c
    case JobPickup => 5
    case ImagesLoaded => 15
    case OcrStarted => 20
    case OcrProgress1 => 40
    case OcrProgress2 => 60
    case OcrProgress3 => 80
    case FormattingStarted => 90
    case Finished => 100
  }

  datatype Layout = Layout(collecting: int, extracting: int, formatting: int, totalSteps: int)

  datatype JobProgress = JobProgress(percent: int, status: Status, stepIndex: int, totalSteps: int)

  // ---------------------------------------------------------------- layout

  function Max(a: int, b: int): int { if a >= b then a else b }

  function Min(a: int, b: int): int { if a <= b then a else b }

  /** `findIndex`: the first step of a category, -1 when there is none. */
  function FindStep(steps: seq<Category>, category: Category): (i: int)
    ensures -1 <= i < |steps|
    ensures i >= 0 ==> steps[i] == category && category !in steps[..i]
    ensures i < 0 ==> category !in steps
  {
    if steps == [] then -1
    else if steps[0] == category then 0
    else
      var i := FindStep(steps[1..], category);
      assert steps == [steps[0]] + steps[1..];
      if i < 0 then -1
      else
        assert steps[..i + 1] == [steps[0]] + steps[1..][..i];
        i + 1
  }

  function ResolveStepIndex(steps: seq<Category>, category: Category, fallback: int): int {
    var i := FindStep(steps, category);
    if i >= 0 then i else Max(0, Min(fallback, |steps| - 1))
  }

  function ResolveLayout(steps: seq<Category>): Layout {
    if steps == [] then Layout(0, 0, 0, 1)
    else
      var finalizing := FindStep(steps, Finalizing);
      var totalSteps := if finalizing >= 0 then |steps| else |steps| + 1;
      Layout(
        ResolveStepIndex(steps, Collecting, 0),
        ResolveStepIndex(steps, Extracting, Min(1, |steps| - 1)),
        if finalizing >= 0 then finalizing else totalSteps - 1,
        totalSteps)
  }

  predicate InLayout(layout: Layout, i: int) { 0 <= i < layout.totalSteps }

  /** Every phase has a step of its own layout, and a step added for formatting is the last one. */
  lemma {:induction false} LayoutIsSound(steps: seq<Category>)
    ensures var layout := ResolveLayout(steps);
      && InLayout(layout, layout.collecting) && InLayout(layout, layout.extracting)
      && InLayout(layout, layout.formatting)
      && (Finalizing !in steps ==>
            layout.formatting == layout.totalSteps - 1 && (steps != [] ==> layout.extracting < layout.formatting))
      && |steps| <= layout.totalSteps <= |steps| + 1
  {
  }

  /** The phases stand at the first step of their category; a missing one has a place of its own. */
  lemma {:induction false} LayoutFindsSteps(steps: seq<Category>)
    requires steps != []
    ensures
      var layout := ResolveLayout(steps);
      && (if Collecting in steps then IsFirst(steps, Collecting, layout.collecting) else layout.collecting == 0)
      && (if Extracting in steps then IsFirst(steps, Extracting, layout.extracting)
          else layout.extracting == if |steps| == 1 then 0 else 1)
      && (if Finalizing in steps then IsFirst(steps, Finalizing, layout.formatting) && layout.totalSteps == |steps|
          else layout.formatting == |steps| && layout.totalSteps == |steps| + 1)
    ensures ResolveLayout([]) == Layout(0, 0, 0, 1)
  {
  }

  predicate IsFirst(steps: seq<Category>, category: Category, i: int) {
    0 <= i < |steps| && steps[i] == category && forall j :: 0 <= j < i ==> steps[j] != category
  }

  // ---------------------------------------------------------------- events

  datatype Event = Enters(status: Status) | Reaches(checkpoint: Checkpoint)

  function PercentOf(previous: Option<JobProgress>): int { if previous.Some? then previous.value.percent else 0 }

  function StepOf(previous: Option<JobProgress>, fallback: int): int {
    if previous.Some? then previous.value.stepIndex else fallback
  }

  function WithStatus(layout: Layout, status: Status, previous: Option<JobProgress>): JobProgress {
    var stepIndex :=
      match status
      case CollectingNow => layout.collecting
      case ExtractingNow => layout.extracting
      case Formatting => layout.formatting
      case Completed => layout.formatting
      case _ => StepOf(previous, layout.collecting);
    var percent :=
      match status
      case Pending => 0
      case CollectingNow => Max(PercentOf(previous), Percent(JobPickup))
      case ExtractingNow => Max(PercentOf(previous), Percent(OcrStarted))
      case Formatting => Max(PercentOf(previous), Percent(FormattingStarted))
      case Completed => Percent(Finished)
      case _ => PercentOf(previous);
    JobProgress(percent, status, stepIndex, layout.totalSteps)
  }

  function WithCheckpoint(layout: Layout, checkpoint: Checkpoint, previous: Option<JobProgress>): JobProgress {
    match checkpoint
    case Finished => JobProgress(100, Completed, StepOf(previous, layout.formatting), layout.totalSteps)
    case JobPickup => JobProgress(Percent(checkpoint), CollectingNow, layout.collecting, layout.totalSteps)
    case ImagesLoaded => JobProgress(Percent(checkpoint), CollectingNow, layout.collecting, layout.totalSteps)
    case FormattingStarted => JobProgress(Percent(checkpoint), Formatting, layout.formatting, layout.totalSteps)
    case _ => JobProgress(Percent(checkpoint), ExtractingNow, layout.extracting, layout.totalSteps)
  }

  function Step(layout: Layout, e: Event, previous: Option<JobProgress>): JobProgress {
    match e
    case Enters(status) => WithStatus(layout, status, previous)
    case Reaches(checkpoint) => WithCheckpoint(layout, checkpoint, previous)
  }

  /** The tracker's state after the events, None before the first. */
  function After(layout: Layout, events: seq<Event>): Option<JobProgress> {
    if events == [] then None
    else Some(Step(layout, events[|events| - 1], After(layout, events[..|events| - 1])))
  }

  // ---------------------------------------------------------------- one event

  /** The phase of a checkpoint, by the percentages at which the phases begin. */
  predicate InPhase(checkpoint: Checkpoint, status: Status) {
    match status
    case CollectingNow => Percent(checkpoint) < Percent(OcrStarted)
    case ExtractingNow => Percent(OcrStarted) <= Percent(checkpoint) < Percent(FormattingStarted)
    case Formatting => Percent(FormattingStarted) <= Percent(checkpoint) < Percent(Finished)
    case Completed => Percent(checkpoint) == Percent(Finished)
    case _ => false
  }

  /** After any events the status is that of the last one: the status itself, or the phase of the checkpoint. */
  lemma {:induction false} StatusIsThatOfTheLast(layout: Layout, events: seq<Event>, e: Event)
    ensures
      var p := After(layout, events + [e]);
      p.Some? && match e
                 case Enters(status) => p.value.status == status
                 case Reaches(checkpoint) => InPhase(checkpoint, p.value.status)
  {
    assert (events + [e])[..|events|] == events;
  }

  /** The step shown is that of the phase; where an event has none, the one shown before. */
  lemma {:induction false} StepIsThatOfThePhase(layout: Layout, events: seq<Event>, e: Event)
    ensures
      var before, p := After(layout, events), After(layout, events + [e]);
      && p.Some?
      && (p.value.status.CollectingNow? ==> p.value.stepIndex == layout.collecting)
      && (p.value.status.ExtractingNow? ==> p.value.stepIndex == layout.extracting)
      && (p.value.status.Formatting? || e == Enters(Completed) ==> p.value.stepIndex == layout.formatting)
      && (e == Reaches(Finished) ==>
            p.value.stepIndex == if before.Some? then before.value.stepIndex else layout.formatting)
      && (e in {Enters(Pending), Enters(Failed), Enters(Canceled)} ==>
            p.value.stepIndex == if before.Some? then before.value.stepIndex else layout.collecting)
  {
    assert (events + [e])[..|events|] == events;
  }

  // ---------------------------------------------------------------- whole runs

  /** After any events the step index is a step of the constant layout and the percentage is one. */
  lemma {:induction false} ProgressIsSound(steps: seq<Category>, events: seq<Event>)
    ensures var p := After(ResolveLayout(steps), events);
      p.Some? ==>
        && p.value.totalSteps == ResolveLayout(steps).totalSteps
        && 0 <= p.value.stepIndex < p.value.totalSteps
        && 0 <= p.value.percent <= 100
  {
    LayoutIsSound(steps);
    if events == [] {
    } else {
      ProgressIsSound(steps, events[..|events| - 1]);
    }
  }

  /** What an event claims by itself. */
  function Claim(e: Event): nat {
    match e
    case Enters(CollectingNow) => Percent(JobPickup)
    case Enters(ExtractingNow) => Percent(OcrStarted)
    case Enters(Formatting) => Percent(FormattingStarted)
    case Enters(Completed) => Percent(Finished)
    case Enters(_) => 0
    case Reaches(checkpoint) => Percent(checkpoint)
  }

  /** Events that set the percentage instead of raising it. */
  predicate Overwrites(e: Event) { e.Reaches? || e == Enters(Pending) }

  /** No checkpoint and no "pending" comes after an event that claims more. */
  predicate InOrder(events: seq<Event>) {
    forall i, j :: 0 <= i < j < |events| && Overwrites(events[j]) ==> Claim(events[i]) <= Claim(events[j])
  }

  function PercentAfter(layout: Layout, events: seq<Event>, n: nat): int
    requires n <= |events|
  {
    PercentOf(After(layout, events[..n]))
  }

  ghost predicate NeverDrops(layout: Layout, events: seq<Event>) {
    forall n :: 0 <= n < |events| ==> PercentAfter(layout, events, n) <= PercentAfter(layout, events, n + 1)
  }

  /** A checkpoint and "pending" set the percentage, every other event raises it to what it claims. */
  lemma {:induction false} OneMore(layout: Layout, events: seq<Event>, n: nat)
    requires n < |events|
    ensures PercentAfter(layout, events, n + 1) == Step(layout, events[n], After(layout, events[..n])).percent
    ensures Overwrites(events[n]) ==> PercentAfter(layout, events, n + 1) == Claim(events[n])
    ensures !Overwrites(events[n]) && PercentAfter(layout, events, n) <= 100 ==>
      PercentAfter(layout, events, n + 1) == Max(PercentAfter(layout, events, n), Claim(events[n]))
    ensures PercentAfter(layout, events, n + 1) >= Claim(events[n])
    ensures 0 <= PercentAfter(layout, events, n) <= 100
  {
    assert events[..n + 1][..n] == events[..n];
    PercentBounded(layout, events[..n]);
  }

  lemma {:induction false} PercentBounded(layout: Layout, events: seq<Event>)
    ensures 0 <= PercentOf(After(layout, events)) <= 100
  {
    if events == [] {
    } else {
      PercentBounded(layout, events[..|events| - 1]);
    }
  }

  function LargestClaim(events: seq<Event>): nat {
    if events == [] then 0 else Max(LargestClaim(events[..|events| - 1]), Claim(events[|events| - 1]))
  }

  lemma {:induction false} ClaimsBelow(events: seq<Event>, bound: nat)
    requires forall i :: 0 <= i < |events| ==> Claim(events[i]) <= bound
    ensures LargestClaim(events) <= bound
  {
    if events == [] {
    } else {
      ClaimsBelow(events[..|events| - 1], bound);
    }
  }

  /** While the events are in order the percentage is the largest claim so far. */
  lemma {:induction false} InOrderIsLargest(layout: Layout, events: seq<Event>, n: nat)
    requires InOrder(events) && n <= |events|
    ensures PercentAfter(layout, events, n) == LargestClaim(events[..n])
  {
    if n == 0 {
    } else {
      InOrderIsLargest(layout, events, n - 1);
      OneMore(layout, events, n - 1);
      assert events[..n][..n - 1] == events[..n - 1];
      if Overwrites(events[n - 1]) { ClaimsBelow(events[..n - 1], Claim(events[n - 1])); }
    }
  }

  lemma {:induction false} ReachedStays(layout: Layout, events: seq<Event>, i: nat, n: nat)
    requires NeverDrops(layout, events) && i < n <= |events|
    ensures Claim(events[i]) <= PercentAfter(layout, events, n)
  {
    if n == i + 1 {
      OneMore(layout, events, i);
    } else {
      ReachedStays(layout, events, i, n - 1);
      assert PercentAfter(layout, events, n - 1) <= PercentAfter(layout, events, n - 1 + 1);
    }
  }

  /**
   * For every layout and event sequence the percentage never drops exactly when no checkpoint and no
   * "pending" comes after an event that claims more; the other statuses may come anywhere.
   */
  lemma {:induction false} NeverDropsIffInOrder(layout: Layout, events: seq<Event>)
    ensures NeverDrops(layout, events) <==> InOrder(events)
  {
    if InOrder(events) {
      forall n | 0 <= n < |events|
        ensures PercentAfter(layout, events, n) <= PercentAfter(layout, events, n + 1)
      {
        InOrderIsLargest(layout, events, n);
        InOrderIsLargest(layout, events, n + 1);
        assert events[..n + 1][..n] == events[..n];
      }
    }
    if NeverDrops(layout, events) {
      forall i, j | 0 <= i < j < |events| && Overwrites(events[j]) ensures Claim(events[i]) <= Claim(events[j]) {
        ReachedStays(layout, events, i, j + 1);
        OneMore(layout, events, j);
      }
    }
  }

  // ---------------------------------------------------------------- the pipelines

  const IMAGES_STEPS: seq<Category> := [Collecting, Extracting]
  const TEXT_STEPS: seq<Category> := [Extracting]

  const IMAGES_EVENTS: seq<Event> := [
    Reaches(JobPickup), Enters(CollectingNow), Reaches(ImagesLoaded), Enters(ExtractingNow), Reaches(OcrStarted)]

  const TEXT_EVENTS: seq<Event> := [Reaches(JobPickup), Enters(ExtractingNow)]

  /** The formatter's two events and the worker's last one. */
  const CLOSING_EVENTS: seq<Event> := [Enters(Formatting), Reaches(FormattingStarted), Reaches(Finished)]

  /** Both pipelines followed by the formatter never drop, wherever they stop, and end at 100 percent. */
  lemma {:induction false} PipelinesNeverDrop(events: seq<Event>, n: nat, steps: seq<Category>)
    requires events == IMAGES_EVENTS + CLOSING_EVENTS || events == TEXT_EVENTS + CLOSING_EVENTS
    requires n <= |events|
    ensures NeverDrops(ResolveLayout(steps), events[..n])
    ensures n == |events| ==> PercentOf(After(ResolveLayout(steps), events[..n])) == 100
    ensures n == |events| ==> After(ResolveLayout(steps), events[..n]).value.status == Completed
  {
    assert InOrder(events);
    assert InOrder(events[..n]);
    NeverDropsIffInOrder(ResolveLayout(steps), events[..n]);
    if n == |events| {
      assert events[..n][|events| - 1] == Reaches(Finished);
    }
  }

  /** The step shown after each event of a pipeline with its own steps: never an earlier one, at last the last. */
  const IMAGES_SHOWN: seq<int> := [0, 0, 0, 1, 1, 2, 2, 2]
  const TEXT_SHOWN: seq<int> := [0, 0, 1, 1, 1]

  /** The percentage shown after each event of a pipeline. */
  const IMAGES_PERCENTS: seq<int> := [5, 5, 15, 20, 20, 90, 90, 100]
  const TEXT_PERCENTS: seq<int> := [5, 20, 90, 90, 100]

  lemma {:induction false} PipelinePercents(layout: Layout, events: seq<Event>, percents: seq<int>, n: nat)
    requires (events == IMAGES_EVENTS + CLOSING_EVENTS && percents == IMAGES_PERCENTS)
      || (events == TEXT_EVENTS + CLOSING_EVENTS && percents == TEXT_PERCENTS)
    requires n < |events|
    ensures |percents| == |events| && PercentAfter(layout, events, n + 1) == percents[n]
  {
    OneMore(layout, events, n);
    if n == 0 {
      assert events[..0] == [];
    } else {
      PipelinePercents(layout, events, percents, n - 1);
    }
    hide PercentAfter, After, Step;
  }

  /** Reading the pictures goes from 20 percent up in steps of 20. */
  lemma {:induction false} OcrGoesInSteps()
    ensures Percent(OcrProgress1) - Percent(OcrStarted) == 20
    ensures Percent(OcrProgress2) - Percent(OcrProgress1) == 20 == Percent(OcrProgress3) - Percent(OcrProgress2)
  {
  }

  predicate IsPipeline(steps: seq<Category>, events: seq<Event>, shown: seq<int>) {
    || (steps == IMAGES_STEPS && events == IMAGES_EVENTS + CLOSING_EVENTS && shown == IMAGES_SHOWN)
    || (steps == TEXT_STEPS && events == TEXT_EVENTS + CLOSING_EVENTS && shown == TEXT_SHOWN)
  }

  lemma {:induction false} PipelineLayouts()
    ensures ResolveLayout(IMAGES_STEPS) == Layout(0, 1, 2, 3)
    ensures ResolveLayout(TEXT_STEPS) == Layout(0, 0, 1, 2)
  {
    assert IMAGES_STEPS[0] == Collecting && IMAGES_STEPS[1] == Extracting && TEXT_STEPS[0] == Extracting;
  }

  /** With the steps of its own layout a pipeline moves forward through them and ends at the last. */
  lemma {:induction false} PipelinesStepForward(steps: seq<Category>, events: seq<Event>, shown: seq<int>, n: nat)
    requires IsPipeline(steps, events, shown) && n < |events|
    ensures |shown| == |events| && After(ResolveLayout(steps), events[..n + 1]).Some?
    ensures After(ResolveLayout(steps), events[..n + 1]).value.stepIndex == shown[n]
    ensures n > 0 ==> shown[n - 1] <= shown[n]
    ensures n + 1 == |events| ==> shown[n] == ResolveLayout(steps).totalSteps - 1
  {
    hide ResolveLayout, After, Step;
    PipelineLayouts();
    AfterOneMore(ResolveLayout(steps), events, n);
    if n == 0 {
    } else {
      PipelinesStepForward(steps, events, shown, n - 1);
    }
    StepIsShown(steps, events, shown, n, After(ResolveLayout(steps), events[..n]));
  }

  lemma {:induction false} AfterOneMore(layout: Layout, events: seq<Event>, n: nat)
    requires n < |events|
    ensures After(layout, events[..n + 1]) == Some(Step(layout, events[n], After(layout, events[..n])))
    ensures n == 0 ==> After(layout, events[..n]).None?
  {
    assert events[..n + 1][..n] == events[..n];
  }

  lemma {:induction false} StepIsShown(
      steps: seq<Category>, events: seq<Event>, shown: seq<int>, n: nat, previous: Option<JobProgress>)
    requires IsPipeline(steps, events, shown) && n < |events|
    requires n > 0 ==> |shown| == |events| && previous.Some? && previous.value.stepIndex == shown[n - 1]
    ensures |shown| == |events| && Step(ResolveLayout(steps), events[n], previous).stepIndex == shown[n]
    ensures n > 0 ==> shown[n - 1] <= shown[n]
    ensures n + 1 == |events| ==> shown[n] == ResolveLayout(steps).totalSteps - 1
  {
    PipelineLayouts();
    hide ResolveLayout;
  }

  // ---------------------------------------------------------------- the tracker's code

  class JobProgressTracker {
    const layout: Layout
    const steps: seq<Category>
    var current: Option<JobProgress>
    ghost var events: seq<Event>

    ghost predicate Valid()
      reads this
    {
      layout == ResolveLayout(steps) && current == After(layout, events)
    }

    constructor (steps: seq<Category>)
      ensures Valid() && this.steps == steps && events == []
    {
      this.steps := steps;
      layout := ResolveLayout(steps);
      current := None;
      events := [];
    }

    method SetStatus(status: Status) returns (progress: JobProgress)
      requires Valid()
      modifies this
      ensures Valid() && events == old(events) + [Enters(status)] && current == Some(progress)
      ensures 0 <= progress.stepIndex < progress.totalSteps == layout.totalSteps && 0 <= progress.percent <= 100
    {
      progress := WithStatus(layout, status, current);
      current := Some(progress);
      events := events + [Enters(status)];
      assert events[..|events| - 1] == old(events);
      ProgressIsSound(steps, events);
    }

    method ReachCheckpoint(checkpoint: Checkpoint) returns (progress: JobProgress)
      requires Valid()
      modifies this
      ensures Valid() && events == old(events) + [Reaches(checkpoint)] && current == Some(progress)
      ensures 0 <= progress.stepIndex < progress.totalSteps == layout.totalSteps && 0 <= progress.percent <= 100
    {
      progress := WithCheckpoint(layout, checkpoint, current);
      current := Some(progress);
      events := events + [Reaches(checkpoint)];
      assert events[..|events| - 1] == old(events);
      ProgressIsSound(steps, events);
    }
  }
}
