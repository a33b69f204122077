/** Bounded retry loops. */
module Retry {
  // Those around the LLM and OCR requests. A script gives what happens to every attempt: the reply to its fetch, and
  // whether the controller is aborted by then or during the wait.
  import opened Text

  // ---------------------------------------------------------------- one loop

  /** Whether the controller has been aborted, and whether the timeout (not only the caller) fired. */
  datatype Signal = Quiet | Aborted(timedOut: bool)

  datatype Reply =
    | Good(value: string)
    | BadPayload            // 2xx, but the body fails its schema
    | Status(code: nat)     // not 2xx
    | Transport             // fetch or body reading rejects with AbortError or TypeError
    | OtherError            // any other exception

  /** The signal when the reply is handled, and at the end of the wait if the attempt leads to one. */
  datatype Attempt = Attempt(reply: Reply, atReply: Signal, inWait: Signal)

  type Script = nat -> Attempt

  datatype Outcome =
    | Success(value: string)
    | InvalidPayload
    | HttpError(code: nat)
    | TransportFailure
    | OtherFailure
    | Stopped(timedOut: bool)       // "... aborted" or "... timed out"
    | WaitAborted(timedOut: bool)   // the raw error of the wait, thrown from inside the catch block

  predicate Retryable(code: nat) { code in {408, 429, 500, 502, 503, 504} }

  /** The catch block for an error that is not retried. */
  function Thrown(signal: Signal, error: Outcome): Outcome {
    match signal
    case Aborted(timedOut) => Stopped(timedOut)
    case Quiet => error
  }

  /** Once aborted, aborted; a timeout can still follow. */
  function Later(atReply: Signal, inWait: Signal): Signal {
    match atReply
    case Quiet => inWait
    case Aborted(t) => Aborted(t || (inWait.Aborted? && inWait.timedOut))
  }

  /** How one pass through the loop ends: with an outcome, or with None when it retries. */
  function Handle(a: Attempt, last: bool): Option<Outcome> {
    match a.reply
    case Good(value) => Some(Success(value))
    case BadPayload => Some(Thrown(a.atReply, InvalidPayload))
    case OtherError => Some(Thrown(a.atReply, OtherFailure))
    case Status(code) =>
      if last || !Retryable(code) then Some(Thrown(a.atReply, HttpError(code)))
      else if Later(a.atReply, a.inWait).Aborted? then Some(Stopped(Later(a.atReply, a.inWait).timedOut))
      else None
    case Transport =>
      if last || a.atReply.Aborted? then Some(Thrown(a.atReply, TransportFailure))
      else if a.inWait.Aborted? then Some(WaitAborted(a.inWait.timedOut))
      else None
  }

  /** The loop stops after `n` fetches, at the first attempt that does not lead to a retry. */
  ghost predicate StopsAt(script: Script, max: nat, n: nat, outcome: Outcome) {
    && 1 <= n <= max
    && Handle(script(n), n == max) == Some(outcome)
    && forall k :: 1 <= k < n ==> Handle(script(k), k == max).None?
  }

  // ---------------------------------------------------------------- backoff

  function Pow2(n: nat): nat { if n == 0 then 1 else 2 * Pow2(n - 1) }

  /** One more than the largest jitter. */
  function Spread(base: nat): nat { if base / 2 < 1 then 1 else base / 2 }

  /** `computeRetryDelayMs`; the jitter is `Math.floor(Math.random() * Spread(base))`. */
  function Delay(attempt: nat, base: nat, jitter: nat): nat
    requires attempt >= 1
  {
    base * Pow2(attempt - 1) + jitter
  }

  ghost predicate JittersIn(base: nat, jitters: nat -> nat) { forall k :: jitters(k) < Spread(base) }

  /** The waits after the first `n` attempts. */
  function TotalDelay(n: nat, base: nat, jitters: nat -> nat): nat {
    if n == 0 then 0 else TotalDelay(n - 1, base, jitters) + Delay(n, base, jitters(n))
  }

  /** The delay of an attempt lies between its power of two and that plus the largest jitter; delays grow strictly. */
  lemma {:induction false} DelaysGrow(attempt: nat, base: nat, jitter: nat, next: nat)
    requires attempt >= 1 && base >= 1 && jitter < Spread(base) && next < Spread(base)
    ensures base * Pow2(attempt - 1) <= Delay(attempt, base, jitter) <= base * Pow2(attempt - 1) + Spread(base) - 1
    ensures Delay(attempt, base, jitter) < Delay(attempt + 1, base, next)
    ensures Delay(attempt, base, jitter) == Delay(attempt, base, 0) + jitter
    ensures Delay(1, base, 0) == base && Delay(attempt + 1, base, 0) == 2 * Delay(attempt, base, 0)
  {
    assert Pow2(attempt) == 2 * Pow2(attempt - 1);
    assert base * Pow2(attempt) == base * Pow2(attempt - 1) + base * Pow2(attempt - 1);
    PowPositive(attempt - 1);
    Product(base, Pow2(attempt - 1));
  }

  /** The jitter is spread over half the base delay, and over one millisecond at least. */
  lemma {:induction false} SpreadIsHalf(base: nat)
    ensures Spread(base) >= 1 && (base >= 2 ==> 2 * Spread(base) <= base < 2 * Spread(base) + 2)
  {
  }

  lemma {:induction false} PowPositive(n: nat)
    ensures Pow2(n) >= 1
  {
    if n == 0 {
    } else {
      PowPositive(n - 1);
    }
  }

  lemma {:induction false} Product(a: nat, b: nat)
    requires b >= 1
    ensures a * b >= a
  {
  }

  lemma {:induction false} Doubled(a: nat, b: nat)
    ensures a * (2 * b - 1) == a * (b - 1) + a * b
  {
  }

  /** The waits between `n` attempts add up to the geometric sum, plus at most the largest jitter each. */
  lemma {:induction false} TotalDelayBounds(n: nat, base: nat, jitters: nat -> nat)
    requires JittersIn(base, jitters)
    ensures base * (Pow2(n) - 1) <= TotalDelay(n, base, jitters) <= base * (Pow2(n) - 1) + n * (Spread(base) - 1)
  {
    if n == 0 {
    } else {
      TotalDelayBounds(n - 1, base, jitters);
      Doubled(base, Pow2(n - 1));
      assert n * (Spread(base) - 1) == (n - 1) * (Spread(base) - 1) + (Spread(base) - 1);
      assert jitters(n) < Spread(base);
    }
  }

  // ---------------------------------------------------------------- the loop's code

  /**
   * The retry loop of `complete`, `uploadFile` and `runOcr`: `fetches` counts the requests, `waited`
   * the full delays between them. The throw after the loop is never reached.
   */
  method RequestWithRetry(script: Script, max: nat, base: nat, jitters: nat -> nat)
    returns (outcome: Outcome, fetches: nat, waited: nat)
    requires max >= 1
    ensures StopsAt(script, max, fetches, outcome)
    ensures waited == TotalDelay(fetches - 1, base, jitters)
  {
    fetches, waited := 0, 0;
    var attempt := 1;
    while attempt <= max
      invariant 1 <= attempt <= max && fetches == attempt - 1
      invariant forall k :: 1 <= k < attempt ==> Handle(script(k), k == max).None?
      invariant waited == TotalDelay(fetches, base, jitters)
      decreases max - attempt
    {
      var a := script(attempt);
      fetches := fetches + 1;
      var retry := false;
      var error := OtherFailure;
      match a.reply {
        case Good(value) =>
          return Success(value), fetches, waited;
        case BadPayload =>
          error := InvalidPayload;
        case Status(code) =>
          error := HttpError(code);
          if attempt < max && Retryable(code) {
            if a.atReply.Aborted? || a.inWait.Aborted? {
              return Stopped(Later(a.atReply, a.inWait).timedOut), fetches, waited;
            }
            retry := true;
          }
        case Transport =>
          error := TransportFailure;
          if !a.atReply.Aborted? && attempt < max {
            if a.inWait.Aborted? {
              return WaitAborted(a.inWait.timedOut), fetches, waited;
            }
            retry := true;
          }
        case OtherError =>
      }
      if !retry {
        if a.atReply.Aborted? {
          return Stopped(a.atReply.timedOut), fetches, waited;
        }
        return error, fetches, waited;
      }
      waited := waited + Delay(attempt, base, jitters(attempt));
      attempt := attempt + 1;
    }
    assert false;
  }

  // ---------------------------------------------------------------- what the loop promises

  lemma {:induction false} RetriesBefore(script: Script, max: nat, n: nat, outcome: Outcome, k: nat)
    requires StopsAt(script, max, n, outcome) && 1 <= k < n
    ensures Handle(script(k), k == max).None?
  {
    hide Handle;
  }

  /** The stopping point is determined by the script. */
  lemma {:induction false} StopIsUnique(script: Script, max: nat, n: nat, m: nat, a: Outcome, b: Outcome)
    requires StopsAt(script, max, n, a) && StopsAt(script, max, m, b)
    ensures n == m && a == b
  {
    hide Handle;
    if n < m { RetriesBefore(script, max, m, b, n); }
    if m < n { RetriesBefore(script, max, n, a, m); }
  }

  predicate IsAborted(a: Attempt) { a.atReply.Aborted? || a.inWait.Aborted? }

  lemma {:induction false} AbortedStops(a: Attempt, last: bool)
    requires IsAborted(a)
    ensures Handle(a, last).Some?
  {
  }

  /** No retry is started after an abort. */
  lemma {:induction false} NoRetryAfterAbort(script: Script, max: nat, n: nat, outcome: Outcome, k: nat)
    requires StopsAt(script, max, n, outcome) && 1 <= k && IsAborted(script(k))
    ensures n <= k
  {
    hide Handle;
    AbortedStops(script(k), k == max);
    if k < n { RetriesBefore(script, max, n, outcome, k); }
  }

  predicate WorthRetrying(reply: Reply) { reply.Transport? || (reply.Status? && Retryable(reply.code)) }

  /** Timeouts, rate limits and the server errors that may pass: 408, 429, and 500 to 504 but for 501. */
  lemma {:induction false} RetryableCodes(code: nat)
    ensures Retryable(code) <==> code == 408 || code == 429 || (500 <= code <= 504 && code != 501)
  {
  }

  /** An attempt is retried exactly when it is not the last, not aborted, and its error is worth it. */
  lemma {:induction false} RetriesExactlyWhen(a: Attempt, last: bool)
    ensures Handle(a, last).None? <==> !last && WorthRetrying(a.reply) && !IsAborted(a)
  {
  }

  /** So the loop goes on as long as that holds, and stops at the first attempt of which it does not. */
  lemma {:induction false} StopsExactlyAt(script: Script, max: nat, n: nat)
    ensures (exists outcome :: StopsAt(script, max, n, outcome)) <==>
      && 1 <= n <= max
      && (n == max || !WorthRetrying(script(n).reply) || IsAborted(script(n)))
      && forall k :: 1 <= k < n ==> WorthRetrying(script(k).reply) && !IsAborted(script(k))
  {
    hide Handle;
    forall k ensures Handle(script(k), k == max).None? <==>
      k != max && WorthRetrying(script(k).reply) && !IsAborted(script(k))
    {
      RetriesExactlyWhen(script(k), k == max);
    }
    var end := Handle(script(n), n == max);
    if end.Some? && 1 <= n <= max &&
      forall k :: 1 <= k < n ==> WorthRetrying(script(k).reply) && !IsAborted(script(k)) {
      assert StopsAt(script, max, n, end.value);
    }
  }

  /** The error that a reply stands for. */
  predicate IsErrorOf(reply: Reply, outcome: Outcome) {
    match reply
    case Good(_) => false
    case BadPayload => outcome == InvalidPayload
    case Status(code) => outcome == HttpError(code)
    case Transport => outcome == TransportFailure
    case OtherError => outcome == OtherFailure
  }

  /**
   * What the last attempt is reported as: a good reply as success, even after an abort; without an
   * abort its own error; and after one as aborted, or as timed out when the timeout fired. Only an
   * abort during the wait after a transport error is reported as it is.
   */
  lemma {:induction false} OutcomeOfTheLast(script: Script, max: nat, n: nat, outcome: Outcome)
    requires StopsAt(script, max, n, outcome)
    ensures
      var a := script(n);
      && (a.reply.Good? <==> outcome.Success?) && (a.reply.Good? ==> outcome.value == a.reply.value)
      && (!a.reply.Good? && !IsAborted(a) ==> IsErrorOf(a.reply, outcome))
      && (!a.reply.Good? && a.atReply.Aborted? ==>
            outcome.Stopped? && (a.inWait == a.atReply ==> outcome.timedOut == a.atReply.timedOut))
      && (!a.atReply.Aborted? && a.inWait.Aborted? && WorthRetrying(a.reply) && n < max ==>
            outcome == if a.reply.Transport? then WaitAborted(a.inWait.timedOut) else Stopped(a.inWait.timedOut))
  {
  }

  /** When the last error is one worth retrying, all attempts have been used, each answered by such an error. */
  lemma {:induction false} ExhaustedReportsLast(script: Script, max: nat, n: nat, outcome: Outcome, k: nat)
    requires StopsAt(script, max, n, outcome) && 1 <= k <= max
    requires outcome.TransportFailure? || (outcome.HttpError? && Retryable(outcome.code))
    ensures n == max && WorthRetrying(script(k).reply)
  {
    if k < n { RetriesBefore(script, max, n, outcome, k); }
  }

  /** The loop succeeds exactly when some attempt is answered well before anything ends the loop. */
  lemma {:induction false} SucceedsWhen(script: Script, max: nat, n: nat, outcome: Outcome)
    requires StopsAt(script, max, n, outcome)
    ensures outcome.Success? <==>
      exists k :: 1 <= k <= max && script(k).reply.Good? && forall j :: 1 <= j < k ==> Handle(script(j), j == max).None?
  {
    if k :| 1 <= k <= max && script(k).reply.Good? && forall j :: 1 <= j < k ==> Handle(script(j), j == max).None? {
      StopIsUnique(script, max, n, k, outcome, Success(script(k).reply.value));
    }
  }

  // ---------------------------------------------------------------- the loop in time

  /** The replies and durations of the fetches, and the moment at which the controller is aborted. */
  datatype Timeline = Timeline(reply: nat -> Reply, takes: nat -> nat, abortAt: nat, timedOut: bool)

  function SignalAt(t: Timeline, time: nat): Signal { if t.abortAt <= time then Aborted(t.timedOut) else Quiet }

  /** When fetch `k` is started if all fetches before it are followed by a full wait. */
  function Start(t: Timeline, base: nat, jitters: nat -> nat, k: nat): nat {
    if k <= 1 then 0 else Start(t, base, jitters, k - 1) + t.takes(k - 1) + Delay(k - 1, base, jitters(k - 1))
  }

  /** What happens to attempt `k` on the timeline. */
  function AttemptAt(t: Timeline, base: nat, jitters: nat -> nat, k: nat): Attempt {
    Attempt(
      t.reply(k),
      SignalAt(t, Start(t, base, jitters, k) + t.takes(k)),
      SignalAt(t, Start(t, base, jitters, k + 1)))
  }

  /** The script is that of the timeline. */
  ghost predicate TimedBy(script: Script, t: Timeline, base: nat, jitters: nat -> nat) {
    forall k :: script(k) == AttemptAt(t, base, jitters, k)
  }

  lemma {:induction false} StartAfterDelays(t: Timeline, base: nat, jitters: nat -> nat, k: nat)
    requires k >= 1
    ensures TotalDelay(k - 1, base, jitters) <= Start(t, base, jitters, k)
  {
    if k == 1 {
    } else {
      StartAfterDelays(t, base, jitters, k - 1);
    }
  }

  /** A fetch is started when the one before it is answered and its delay has passed. */
  lemma {:induction false} StartFollows(t: Timeline, base: nat, jitters: nat -> nat, k: nat)
    requires k >= 1
    ensures Start(t, base, jitters, 1) == 0
    ensures Start(t, base, jitters, k + 1) == Start(t, base, jitters, k) + t.takes(k) + Delay(k, base, jitters(k))
  {
  }

  lemma {:induction false} StartsGrow(t: Timeline, base: nat, jitters: nat -> nat, j: nat, k: nat)
    requires 1 <= j <= k
    ensures Start(t, base, jitters, j) <= Start(t, base, jitters, k)
  {
    if j == k {
    } else {
      StartsGrow(t, base, jitters, j, k - 1);
      StartFollows(t, base, jitters, k - 1);
    }
  }

  /** While nothing is aborted before the last fetch would be over, errors worth retrying use up all attempts. */
  lemma {:induction false} LateAbortUsesAll(
      script: Script, t: Timeline, base: nat, jitters: nat -> nat, max: nat, n: nat, outcome: Outcome)
    requires TimedBy(script, t, base, jitters) && StopsAt(script, max, n, outcome)
    requires forall k :: 1 <= k <= max ==> WorthRetrying(t.reply(k))
    requires Start(t, base, jitters, max) < t.abortAt
    ensures n == max
  {
    if n < max {
      assert script(n) == AttemptAt(t, base, jitters, n) && WorthRetrying(t.reply(n));
      StartFollows(t, base, jitters, n);
      StartsGrow(t, base, jitters, n + 1, max);
      RetriesExactlyWhen(script(n), n == max);
    }
  }

  /** Every fetch after the first one is started before the abort. */
  lemma {:induction false} StartsBeforeAbort(
      script: Script, t: Timeline, base: nat, jitters: nat -> nat, max: nat, n: nat, outcome: Outcome, k: nat)
    requires TimedBy(script, t, base, jitters) && StopsAt(script, max, n, outcome) && 1 < k <= n
    ensures Start(t, base, jitters, k) < t.abortAt
  {
    hide Handle, Start;
    RetriesBefore(script, max, n, outcome, k - 1);
    assert script(k - 1) == AttemptAt(t, base, jitters, k - 1);
    if IsAborted(script(k - 1)) { AbortedStops(script(k - 1), k - 1 == max); }
  }

  /**
   * The abort bounds the retries through the backoff: a loop that makes n fetches has waited at least
   * base * (2^(n-1) - 1) before the last one, so that sum lies below the moment of the abort, and
   * below the timeout, which aborts at the latest.
   */
  lemma {:induction false} TimeoutBoundsRetries(
      script: Script, t: Timeline, base: nat, jitters: nat -> nat, max: nat, n: nat, outcome: Outcome, timeout: nat)
    requires TimedBy(script, t, base, jitters) && StopsAt(script, max, n, outcome) && n > 1
    requires JittersIn(base, jitters) && t.abortAt <= timeout
    ensures base * (Pow2(n - 1) - 1) < timeout
  {
    hide StopsAt, TimedBy, Pow2;
    StartsBeforeAbort(script, t, base, jitters, max, n, outcome, n);
    StartAfterDelays(t, base, jitters, n);
    TotalDelayBounds(n - 1, base, jitters);
  }

  // ---------------------------------------------------------------- OCR: upload, run, delete

  datatype Request = Upload | Ocr(fileId: string) | Delete(fileId: string)

  function Repeat(r: Request, n: nat): seq<Request> { seq(n, i => r) }

  /** The outer catch of `extract`: after a timeout every error is reported as a timeout. */
  function Reported(outcome: Outcome): Outcome {
    match outcome
    case WaitAborted(timedOut) => if timedOut then Stopped(true) else outcome
    case _ => outcome
  }

  /** `extract`: upload, OCR, and in the finally block one delete when there is a file. */
  method Extract(upload: Script, ocr: Script, max: nat, base: nat, jitters: nat -> nat)
    returns (outcome: Outcome, log: seq<Request>)
    requires max >= 1
    ensures exists up, n :: StopsAt(upload, max, n, up) && ExtractDoes(ocr, max, up, n, outcome, log)
  {
    var up, n, w := RequestWithRetry(upload, max, base, jitters);
    log := Repeat(Upload, n);
    if up.Success? {
      var fileId := up.value;
      var run, m, v := RequestWithRetry(ocr, max, base, jitters);
      log := log + Repeat(Ocr(fileId), m);
      outcome := Reported(run);
      log := log + [Delete(fileId)];
      assert RunStops(ocr, max, m, run);
    } else {
      outcome := Reported(up);
    }
    assert ExtractDoes(ocr, max, up, n, outcome, log);
  }

  ghost predicate RunStops(ocr: Script, max: nat, m: nat, run: Outcome) { StopsAt(ocr, max, m, run) }

  /** The log of a call whose upload returned a file. */
  function Logged(n: nat, m: nat, fileId: string): seq<Request> {
    Repeat(Upload, n) + Repeat(Ocr(fileId), m) + [Delete(fileId)]
  }

  /** The requests and the outcome of `extract` after an upload that took `n` requests. */
  ghost predicate ExtractDoes(ocr: Script, max: nat, up: Outcome, n: nat, outcome: Outcome, log: seq<Request>) {
    if up.Success? then
      exists m, run :: RunStops(ocr, max, m, run) && outcome == Reported(run)
        && log == Logged(n, m, up.value)
    else outcome == Reported(up) && log == Repeat(Upload, n)
  }

  /** The outcome of the call is that of its last loop, except that a timeout during a wait is a timeout. */
  lemma {:induction false} ExtractReports(ocr: Script, max: nat, up: Outcome, n: nat, outcome: Outcome,
    log: seq<Request>)
    returns (last: Outcome)
    requires ExtractDoes(ocr, max, up, n, outcome, log)
    ensures if up.Success? then exists m :: StopsAt(ocr, max, m, last) else last == up
    ensures outcome == if last == WaitAborted(true) then Stopped(true) else last
  {
    hide StopsAt;
    if up.Success? {
      var m, run :| RunStops(ocr, max, m, run) && outcome == Reported(run) && log == Logged(n, m, up.value);
      last := run;
    } else {
      last := up;
    }
  }

  function Deletes(log: seq<Request>): seq<Request> {
    if log == [] then [] else (if log[0].Delete? then [log[0]] else []) + Deletes(log[1..])
  }

  lemma {:induction false} DeletesJoin(a: seq<Request>, b: seq<Request>)
    ensures Deletes(a + b) == Deletes(a) + Deletes(b)
  {
    if a == [] {
      assert a + b == b;
    } else {
      DeletesJoin(a[1..], b);
      assert (a + b)[1..] == a[1..] + b;
      assert Deletes(a + b) == (if a[0].Delete? then [a[0]] else []) + Deletes((a + b)[1..]);
    }
  }

  lemma {:induction false} NoDeletes(log: seq<Request>)
    requires forall r :: r in log ==> !r.Delete?
    ensures Deletes(log) == []
  {
    if log == [] {
    } else {
      NoDeletes(log[1..]);
    }
  }

  lemma {:induction false} LoggedOnce(n: nat, m: nat, fileId: string)
    ensures Deletes(Logged(n, m, fileId)) == [Delete(fileId)]
  {
    NoDeletes(Repeat(Upload, n));
    NoDeletes(Repeat(Ocr(fileId), m));
    DeletesJoin(Repeat(Upload, n), Repeat(Ocr(fileId), m));
    DeletesJoin(Repeat(Upload, n) + Repeat(Ocr(fileId), m), [Delete(fileId)]);
    assert [Delete(fileId)][1..] == [];
  }

  /**
   * Exactly when the upload returned a file the file is deleted, once, as the last request, whatever
   * happens to the OCR requests; there are at most 2 * max + 1 requests.
   */
  lemma {:induction false} OneDeletePerUpload(
      upload: Script, ocr: Script, max: nat, up: Outcome, n: nat, outcome: Outcome, log: seq<Request>)
    requires StopsAt(upload, max, n, up) && ExtractDoes(ocr, max, up, n, outcome, log)
    ensures Deletes(log) == if up.Success? then [Delete(up.value)] else []
    ensures up.Success? ==> log[|log| - 1] == Delete(up.value)
    ensures n <= |log| <= 2 * max + 1
    ensures outcome.Success? ==> up.Success?
    ensures forall r :: r in log && r.Ocr? ==> up.Success? && r.fileId == up.value
  {
    hide Handle, Deletes;
    if up.Success? {
      var m, run :| RunStops(ocr, max, m, run) && outcome == Reported(run) && log == Logged(n, m, up.value);
      LoggedOnce(n, m, up.value);
    } else {
      NoDeletes(Repeat(Upload, n));
    }
  }
}
