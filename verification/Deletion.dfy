/** The content-lock deletion worker (`deletion_worker.rs`): one claimed job per iteration,
    claim-conditional writes, capped exponential backoff and per-source readiness. Durations are
    nanoseconds. */
module Deletion {
  import opened Common

  /** The longest `std::time::Duration`. */
  const DURATION_MAX: nat := U64_MAX * SECOND + 999_999_999

  // ---------------------------------------------------------------- backoff

  /** Doubling from `initial`, capped: the closed form. */
  function Cap(initial: nat, maximum: nat, attempts: nat): nat {
    Min(maximum, initial * Pow2(if attempts == 0 then 0 else attempts - 1))
  }

  lemma Doubles(initial: nat, n: nat)
    ensures initial * Pow2(n + 1) == 2 * (initial * Pow2(n))
  {}

  lemma {:induction false} GrowsWith(initial: nat, m: nat, n: nat)
    requires m <= n
    ensures initial * Pow2(m) <= initial * Pow2(n)
  {
    if m < n {
      GrowsWith(initial, m, n - 1);
      Doubles(initial, n - 1);
    }
  }

  /** `retry_cap`: the loop doubles with an overflow fallback and stops early at the maximum. For
      every attempt count it returns the closed form. */
  method RetryCap(initial: nat, maximum: nat, attempts: nat) returns (cap: nat)
    requires initial <= DURATION_MAX && maximum <= DURATION_MAX
    ensures cap == Cap(initial, maximum, attempts)
  {
    cap := Min(initial, maximum);
    var i := 1;
    while i < attempts
      invariant 1 <= i && (attempts == 0 ==> i == 1) && (attempts >= 1 ==> i <= attempts)
      invariant cap == Min(maximum, initial * Pow2(i - 1))
    {
      Doubles(initial, i - 1);
      var doubled := if cap * 2 <= DURATION_MAX then cap * 2 else maximum;   // checked_mul
      cap := Min(doubled, maximum);
      i := i + 1;
      if cap == maximum {
        GrowsWith(initial, i - 1, attempts - 1);
        return;
      }
    }
  }

  /** Later attempts never wait under a smaller cap. */
  lemma CapIsMonotone(initial: nat, maximum: nat, m: nat, n: nat)
    requires m <= n
    ensures Cap(initial, maximum, m) <= Cap(initial, maximum, n) <= maximum
  {
    GrowsWith(initial, if m == 0 then 0 else m - 1, if n == 0 then 0 else n - 1);
  }

  // ---------------------------------------------------------------- one iteration

  datatype Config = Config(workerId: string, pollInterval: nat, maxAttempts: nat, initialBackoff: nat, maxBackoff: nat)

  datatype Claim = Claim(jobId: nat, token: nat, attempts: nat)

  datatype Phase = Progressed | Deferring | LostClaim | TerminallyFailed | TransientFailure | Fatal

  datatype Outcome = Idle | Cancelled | Progress | Deferred | ClaimLost | TerminalFailed
                   | RetryScheduled | RetryExhausted

  datatype Result = Done(outcome: Outcome) | Error

  /** What a repository call answered. */
  datatype Answer = Applied | Refused | Broke

  datatype Effect =
    | AskClaim
    | Execute(claim: Claim)
    | Defer(jobId: nat, token: nat, delay: nat)
    | Retry(jobId: nat, token: nat, delay: nat)
    | FinishExhausted(jobId: nat, token: nat)

  predicate Mutation(e: Effect) { e.Defer? || e.Retry? || e.FinishExhausted? }

  /** Everything the environment decides in one iteration: the shutdown flag at its two looks, the
      claim, the executor's outcome, the jitter draw and the answer to the mutation. */
  datatype Inputs = Inputs(stopBefore: bool, claimBroke: bool, claim: Option<Claim>, stopAfter: bool,
                           phase: Phase, draw: nat, answer: Answer)

  function Written(a: Answer, success: Outcome): Result {
    match a
    case Applied => Done(success)
    case Refused => Done(ClaimLost)
    case Broke => Error
  }

  /** `retry_or_exhaust`. */
  method RetryOrExhaust(cfg: Config, c: Claim, draw: nat, answer: Answer) returns (r: Result, e: Effect)
    requires cfg.initialBackoff <= DURATION_MAX && cfg.maxBackoff <= DURATION_MAX
    ensures c.attempts >= cfg.maxAttempts ==>
        e == FinishExhausted(c.jobId, c.token) && r == Written(answer, RetryExhausted)
    ensures c.attempts < cfg.maxAttempts ==>
      && e.Retry? && e.jobId == c.jobId && e.token == c.token
      && e.delay == Min(draw, Cap(cfg.initialBackoff, cfg.maxBackoff, c.attempts))
      && r == Written(answer, RetryScheduled)
  {
    if c.attempts >= cfg.maxAttempts {
      return Written(answer, RetryExhausted), FinishExhausted(c.jobId, c.token);
    }
    var cap := RetryCap(cfg.initialBackoff, cfg.maxBackoff, c.attempts);
    var delay := Min(draw, cap);
    return Written(answer, RetryScheduled), Retry(c.jobId, c.token, delay);
  }

  /** How many repository mutations a log holds. */
  function Mutations(log: seq<Effect>): nat {
    if log == [] then 0 else Mutations(log[..|log| - 1]) + if Mutation(log[|log| - 1]) then 1 else 0
  }

  /** How often a log runs the executor. */
  function Executions(log: seq<Effect>): nat {
    if log == [] then 0 else Executions(log[..|log| - 1]) + if log[|log| - 1].Execute? then 1 else 0
  }

  lemma {:induction false} LogsAdd(a: seq<Effect>, b: seq<Effect>)
    ensures Executions(a + b) == Executions(a) + Executions(b)
    ensures Mutations(a + b) == Mutations(a) + Mutations(b)
  {
    if b == [] {
      assert a + b == a;
    } else {
      var most := b[..|b| - 1];
      LogsAdd(a, most);
      assert (a + b)[..|a + b| - 1] == a + most;
    }
  }

  lemma LogOfOne(e: Effect)
    ensures Executions([e]) == (if e.Execute? then 1 else 0) && Mutations([e]) == (if Mutation(e) then 1 else 0)
  {
    assert [e][..0] == [];
  }

  // The log of an iteration in three parts: the claim, the executor, the write.

  predicate Claims(x: Inputs) { !x.stopBefore && !x.claimBroke && x.claim.Some? }

  predicate Runs(cfg: Config, x: Inputs) { Claims(x) && !x.stopAfter && x.claim.value.attempts <= cfg.maxAttempts }

  /** The one write an iteration makes, if any. */
  function Write(cfg: Config, x: Inputs): Option<Effect> {
    if !Claims(x) then None
    else
      var c := x.claim.value;
      if x.stopAfter then Some(Defer(c.jobId, c.token, 0))
      else if Runs(cfg, x) && x.phase.Deferring? then Some(Defer(c.jobId, c.token, cfg.pollInterval))
      else if Runs(cfg, x) && !x.phase.TransientFailure? then None
      else if c.attempts >= cfg.maxAttempts then Some(FinishExhausted(c.jobId, c.token))
      else Some(Retry(c.jobId, c.token, Min(x.draw, Cap(cfg.initialBackoff, cfg.maxBackoff, c.attempts))))
  }

  function Log(cfg: Config, x: Inputs): seq<Effect> {
    (if x.stopBefore then [] else [AskClaim])
    + (if Runs(cfg, x) then [Execute(x.claim.value)] else [])
    + (if Write(cfg, x).Some? then [Write(cfg, x).value] else [])
  }

  /** An iteration runs the executor once, exactly when its claim is within the budget and no
      shutdown was seen, and otherwise not at all; it writes at most once. */
  lemma LogRuns(cfg: Config, x: Inputs)
    ensures Executions(Log(cfg, x)) == if Runs(cfg, x) then 1 else 0
    ensures Mutations(Log(cfg, x)) == if Write(cfg, x).Some? then 1 else 0
  {
    var head := if x.stopBefore then [] else [AskClaim];
    var middle := if Runs(cfg, x) then [Execute(x.claim.value)] else [];
    var tail := if Write(cfg, x).Some? then [Write(cfg, x).value] else [];
    if !x.stopBefore { LogOfOne(AskClaim); }
    if Runs(cfg, x) { LogOfOne(Execute(x.claim.value)); }
    if Write(cfg, x).Some? { LogOfOne(Write(cfg, x).value); }
    LogsAdd(head, middle);
    LogsAdd(head + middle, tail);
  }

  /** What is in the log: the executor runs on the claim and never after shutdown was seen, and the
      write carries the claim's own job and token and a delay within the cap. */
  lemma LogIsDisciplined(cfg: Config, x: Inputs)
    ensures x.stopBefore || x.stopAfter ==> forall e :: e in Log(cfg, x) ==> !e.Execute?
    ensures (exists e :: e in Log(cfg, x) && e.Execute?) <==> Runs(cfg, x)
    ensures forall e :: e in Log(cfg, x) && e.Execute? ==> x.claim == Some(e.claim)
    ensures forall e :: e in Log(cfg, x) && Mutation(e) ==>
      x.claim.Some? && e.jobId == x.claim.value.jobId && e.token == x.claim.value.token
    ensures forall e :: e in Log(cfg, x) && e.Retry? ==>
      x.claim.Some? && e.delay <= Cap(cfg.initialBackoff, cfg.maxBackoff, x.claim.value.attempts)
    ensures forall e :: e in Log(cfg, x) && e.Defer? ==> e.delay == if x.stopAfter then 0 else cfg.pollInterval
  {
    if Runs(cfg, x) { assert Execute(x.claim.value) in Log(cfg, x); }
  }

  /** What an iteration reports: nothing claimed is idle, an exhausted claim and a transient failure
      depend on the write that follows, and every other answer of the executor has its own outcome. */
  function Reported(cfg: Config, x: Inputs): Result {
    if x.stopBefore then Done(Cancelled)
    else if x.claimBroke then Error
    else if x.claim.None? then Done(Idle)
    else if x.stopAfter then Written(x.answer, Cancelled)
    else if !Runs(cfg, x) then Written(x.answer, RetryExhausted)
    else match x.phase
         case Progressed => Done(Progress)
         case TerminallyFailed => Done(TerminalFailed)
         case LostClaim => Done(ClaimLost)
         case Fatal => Error
         case Deferring => Written(x.answer, Deferred)
         case TransientFailure =>
           Written(x.answer, if x.claim.value.attempts < cfg.maxAttempts then RetryScheduled else RetryExhausted)
  }

  /** Answer by answer: what the executor said is what is reported, and where a write follows, its
      success; a write that broke is an error. */
  lemma ReportPerAnswer(cfg: Config, x: Inputs)
    ensures x.stopBefore ==> Reported(cfg, x) == Done(Cancelled)
    ensures Asks(x) && x.claim.None? ==> Reported(cfg, x) == Done(Idle)
    ensures !x.stopBefore && x.claimBroke ==> Reported(cfg, x) == Error
    ensures Claims(x) && x.stopAfter && x.answer.Applied? ==> Reported(cfg, x) == Done(Cancelled)
    ensures Runs(cfg, x) ==>
      && (x.phase.Progressed? ==> Reported(cfg, x) == Done(Progress))
      && (x.phase.TerminallyFailed? ==> Reported(cfg, x) == Done(TerminalFailed))
      && (x.phase.LostClaim? ==> Reported(cfg, x) == Done(ClaimLost))
      && (x.phase.Fatal? ==> Reported(cfg, x) == Error)
      && (x.phase.Deferring? && x.answer.Applied? ==> Reported(cfg, x) == Done(Deferred))
      && (x.phase.TransientFailure? && x.answer.Applied? ==>
            Reported(cfg, x) == Done(if Write(cfg, x).value.Retry? then RetryScheduled else RetryExhausted))
    ensures Claims(x) && !x.stopAfter && x.claim.value.attempts > cfg.maxAttempts && x.answer.Applied? ==>
      Reported(cfg, x) == Done(RetryExhausted)
    ensures Write(cfg, x).Some? && x.answer.Broke? ==> Reported(cfg, x) == Error
  {}

  /** A refused write, or a claim the executor lost, and nothing else, is reported as a lost claim. */
  lemma LostIsLost(cfg: Config, x: Inputs)
    ensures Reported(cfg, x) == Done(ClaimLost) <==>
      if Write(cfg, x).Some? then x.answer.Refused? else Runs(cfg, x) && x.phase.LostClaim?
    ensures Reported(cfg, x) == Done(RetryExhausted) ==> Claims(x) && x.claim.value.attempts >= cfg.maxAttempts
  {}

  /** `run_once_with_evidence`, with the calls it makes in `log`. A sticky shutdown seen before or
      just after claiming starts no external action; the executor runs only within the attempt
      budget; at most one mutation follows, always with the claim's own job and token and a delay
      within the cap whatever the jitter source drew; a refused mutation is reported as
      `ClaimLost` and nothing else is, except what the executor itself lost. */
  method RunOnce(cfg: Config, x: Inputs) returns (r: Result, log: seq<Effect>)
    requires cfg.initialBackoff <= DURATION_MAX && cfg.maxBackoff <= DURATION_MAX
    ensures log == Log(cfg, x)
    ensures x.stopBefore ==> log == [] && r == Done(Cancelled)
    ensures x.stopBefore || x.stopAfter ==> forall e :: e in log ==> !e.Execute?
    ensures !x.stopBefore && !x.claimBroke && x.claim.Some? && x.stopAfter ==>
      log == [AskClaim, Defer(x.claim.value.jobId, x.claim.value.token, 0)] && r == Written(x.answer, Cancelled)
    ensures (exists e :: e in log && e.Execute?) <==>
      !x.stopBefore && !x.claimBroke && x.claim.Some? && !x.stopAfter && x.claim.value.attempts <= cfg.maxAttempts
    ensures forall e :: e in log && e.Execute? ==> x.claim == Some(e.claim)
    ensures Mutations(log) <= 1
    ensures forall e :: e in log && Mutation(e) ==>
      x.claim.Some? && e.jobId == x.claim.value.jobId && e.token == x.claim.value.token
    ensures forall e :: e in log && e.Retry? ==>
        x.claim.Some? && e.delay <= Cap(cfg.initialBackoff, cfg.maxBackoff, x.claim.value.attempts)
    ensures Mutations(log) == 1 && x.answer.Refused? ==> r == Done(ClaimLost)
    ensures r == Done(ClaimLost) ==>
      (Mutations(log) == 1 && x.answer.Refused?) || (Mutations(log) == 0 && x.phase.LostClaim?)
    ensures r == Done(RetryExhausted) ==> x.claim.Some? && x.claim.value.attempts >= cfg.maxAttempts
    ensures r == Reported(cfg, x)
  {
    LogIsDisciplined(cfg, x);
    LogRuns(cfg, x);
    LostIsLost(cfg, x);
    if x.stopBefore { return Done(Cancelled), []; }
    log := [AskClaim];
    if x.claimBroke { return Error, log; }
    if x.claim.None? { return Done(Idle), log; }
    var c := x.claim.value;
    if x.stopAfter {
      return Written(x.answer, Cancelled), log + [Defer(c.jobId, c.token, 0)];
    }
    if c.attempts > cfg.maxAttempts {
      var res, e := RetryOrExhaust(cfg, c, x.draw, x.answer);
      return res, log + [e];
    }
    log := log + [Execute(c)];
    match x.phase {
      case Progressed => return Done(Progress), log;
      case TerminallyFailed => return Done(TerminalFailed), log;
      case LostClaim => return Done(ClaimLost), log;
      case Deferring =>
        return Written(x.answer, Deferred), log + [Defer(c.jobId, c.token, cfg.pollInterval)];
      case TransientFailure =>
        var res, e := RetryOrExhaust(cfg, c, x.draw, x.answer);
        assert (log + [e])[1] == Execute(c);
        return res, log + [e];
      case Fatal => return Error, log;
    }
  }

  // ---------------------------------------------------------------- attempts over a job's life

  datatype JobState = Queued | Running | Ended

  /** One job in the repository: `attempts` as stored and the current claim's token. */
  datatype Job = Job(state: JobState, attempts: U32, token: Option<nat>, nextToken: nat)

  /** The job and the writes its iterations have made that have not arrived, by claim token. */
  datatype System = System(job: Job, pending: map<nat, Effect>)

  /** What can happen to a job. An iteration claims it and does all its log says; its write arrives
      later, or never. A lease may expire and be claimed again at any time, also by a claim whose
      reply is lost. The executor may end the job; a phase change or a forced request resets it. */
  datatype Event =
    | Iterate(x: Inputs)
    | LostClaim
    | Arrive(token: nat)
    | Finish
    | Reset

  /** `claim_next`: a saturating attempt count and a new token. */
  function Claimed(j: Job): Job {
    j.(state := Running, attempts := Min(j.attempts + 1, U32_MAX), token := Some(j.nextToken),
       nextToken := j.nextToken + 1)
  }

  /** An iteration's inputs with the claim the repository hands it, if it asks and there is one. */
  function Given(x: Inputs, j: Job): Inputs {
    x.(claim := if j.state.Ended? then None else Some(Claim(0, j.nextToken, Claimed(j).attempts)))
  }

  predicate Asks(x: Inputs) { !x.stopBefore && !x.claimBroke }

  /** A write changes the job only under the current token. */
  function Accepted(j: Job, e: Effect): Job
    requires Mutation(e)
  {
    if j.token != Some(e.token) then j
    else match e
         case Defer(_, _, _) =>
           j.(state := Queued, attempts := if j.attempts == 0 then 0 else j.attempts - 1, token := None)
         case Retry(_, _, _) => j.(state := Queued, token := None)
         case FinishExhausted(_, _) => j.(state := Ended, token := None)
  }

  function Happens(cfg: Config, s: System, e: Event): System {
    match e
    case Iterate(x) =>
      if !Asks(x) || s.job.state.Ended? then s
      else
        var w := Write(cfg, Given(x, s.job));
        System(Claimed(s.job), if w.Some? then s.pending[s.job.nextToken := w.value] else s.pending)
    case LostClaim => if s.job.state.Ended? then s else s.(job := Claimed(s.job))
    case Arrive(t) =>
      if t in s.pending && Mutation(s.pending[t])
      then System(Accepted(s.job, s.pending[t]), s.pending - {t}) else s
    case Finish => s.(job := s.job.(state := Ended, token := None))
    case Reset => s.(job := s.job.(state := Queued, attempts := 0, token := None))
  }

  /** How often an event runs the executor: what the iteration's own log says. */
  function RunsAt(cfg: Config, s: System, e: Event): nat {
    if e.Iterate? then Executions(Log(cfg, Given(e.x, s.job))) else 0
  }

  /** The event is the arrival of a deferral under the current token. */
  predicate Defers(s: System, e: Event) {
    e.Arrive? && e.token in s.pending && s.pending[e.token].Defer? && s.job.token == Some(s.pending[e.token].token)
  }

  function HistoryRuns(cfg: Config, s: System, events: seq<Event>): nat
    decreases |events|
  {
    if events == [] then 0 else RunsAt(cfg, s, events[0]) + HistoryRuns(cfg, Happens(cfg, s, events[0]), events[1..])
  }

  function Deferrals(cfg: Config, s: System, events: seq<Event>): nat
    decreases |events|
  {
    if events == [] then 0
    else (if Defers(s, events[0]) then 1 else 0) + Deferrals(cfg, Happens(cfg, s, events[0]), events[1..])
  }

  /** The budget one claim sequence has: executor runs over iterations whose attempt counts strictly
      rise above `floor`. */
  function TotalRuns(cfg: Config, xs: seq<Inputs>): nat {
    if xs == [] then 0 else Executions(Log(cfg, xs[0])) + TotalRuns(cfg, xs[1..])
  }

  predicate Rising(xs: seq<Inputs>, floor: nat)
    decreases |xs|
  {
    xs == [] ||
    if Claims(xs[0]) then xs[0].claim.value.attempts > floor && Rising(xs[1..], xs[0].claim.value.attempts)
    else Rising(xs[1..], floor)
  }

  /** With strictly rising attempt counts from 1 the executor runs at most `retry_max_attempts` times. */
  lemma {:induction false} RisingClaimsAreBounded(cfg: Config, xs: seq<Inputs>, floor: nat)
    requires Rising(xs, floor)
    ensures TotalRuns(cfg, xs) <= if floor <= cfg.maxAttempts then cfg.maxAttempts - floor else 0
    decreases |xs|
  {
    if xs != [] {
      LogRuns(cfg, xs[0]);
      RisingClaimsAreBounded(cfg, xs[1..], if Claims(xs[0]) then xs[0].claim.value.attempts else floor);
    }
  }

  lemma EventRuns(cfg: Config, s: System, e: Event)
    requires cfg.maxAttempts < U32_MAX && e != Reset
    ensures RunsAt(cfg, s, e) + Min(s.job.attempts, cfg.maxAttempts)
         <= (if Defers(s, e) then 1 else 0) + Min(Happens(cfg, s, e).job.attempts, cfg.maxAttempts)
  {
    if e.Iterate? { LogRuns(cfg, Given(e.x, s.job)); }
  }

  /** Over every history without a reset, with any number of workers, crashes, lost replies and
      lease reclaims, the executor runs at most `retry_max_attempts` times more than deferrals were
      applied: a deferral hands its attempt back. The count saturates, so the largest limit, which
      nothing ever exceeds, is excluded. */
  lemma {:induction false} RunsAreBounded(cfg: Config, s: System, events: seq<Event>)
    requires cfg.maxAttempts < U32_MAX && Reset !in events
    ensures HistoryRuns(cfg, s, events) + Min(s.job.attempts, cfg.maxAttempts)
         <= Deferrals(cfg, s, events) + cfg.maxAttempts
    decreases |events|
  {
    if events != [] {
      EventRuns(cfg, s, events[0]);
      RunsAreBounded(cfg, Happens(cfg, s, events[0]), events[1..]);
    }
  }

  /** A job whose deferrals never apply runs at most `retry_max_attempts` times between resets. */
  lemma UndeferredRunsAreBounded(cfg: Config, s: System, events: seq<Event>)
    requires cfg.maxAttempts < U32_MAX && Reset !in events && Deferrals(cfg, s, events) == 0
    ensures HistoryRuns(cfg, s, events) <= cfg.maxAttempts
  {
    RunsAreBounded(cfg, s, events);
  }

  /** A job that has been finished, as exhausted or otherwise, is not run again before a reset. */
  lemma {:induction false} EndedIsNotRun(cfg: Config, s: System, events: seq<Event>)
    requires s.job.state.Ended? && s.job.token.None? && Reset !in events
    ensures HistoryRuns(cfg, s, events) == 0
    decreases |events|
  {
    if events != [] {
      if events[0].Iterate? { LogRuns(cfg, Given(events[0].x, s.job)); }
      EndedIsNotRun(cfg, Happens(cfg, s, events[0]), events[1..]);
    }
  }

  /** The arrival of an exhausted job's last write, under the current token, finishes it. */
  lemma ExhaustionEndsTheJob(cfg: Config, s: System, t: nat)
    requires t in s.pending && s.pending[t].FinishExhausted? && s.job.token == Some(s.pending[t].token)
    ensures Happens(cfg, s, Arrive(t)).job.state.Ended? && Happens(cfg, s, Arrive(t)).job.token.None?
  {}

  // ---------------------------------------------------------------- the bound is attained

  /** An iteration that runs the executor with the given outcome. */
  function Executing(phase: Phase): Event { Iterate(Inputs(false, false, None, false, phase, 0, Applied)) }

  function NewJob(token: nat): System { System(Job(Queued, 0, None, token), map[]) }

  function Attempts(n: nat): seq<Event> { if n == 0 then [] else [Executing(Fatal)] + Attempts(n - 1) }

  /** `d` runs that end deferred, then `n` that crash. */
  function DeferredThen(token: nat, d: nat, n: nat): seq<Event>
    decreases d
  {
    if d == 0 then Attempts(n) else [Executing(Deferring), Arrive(token)] + DeferredThen(token + 1, d - 1, n)
  }

  lemma {:induction false} AttemptsRun(cfg: Config, s: System, n: nat)
    requires !s.job.state.Ended? && (s.job.attempts + n <= cfg.maxAttempts <= U32_MAX || cfg.maxAttempts == U32_MAX)
    ensures HistoryRuns(cfg, s, Attempts(n)) == n && Deferrals(cfg, s, Attempts(n)) == 0 && Reset !in Attempts(n)
    decreases n
  {
    if n > 0 {
      LogRuns(cfg, Given(Executing(Fatal).x, s.job));
      AttemptsRun(cfg, Happens(cfg, s, Executing(Fatal)), n - 1);
      assert Attempts(n)[1..] == Attempts(n - 1);
    }
  }

  lemma DeferredRun(cfg: Config, s: System)
    requires 1 <= cfg.maxAttempts && s == NewJob(s.job.nextToken)
    ensures var s1 := Happens(cfg, s, Executing(Deferring));
      && RunsAt(cfg, s, Executing(Deferring)) == 1
      && Defers(s1, Arrive(s.job.nextToken))
      && Happens(cfg, s1, Arrive(s.job.nextToken)) == NewJob(s.job.nextToken + 1)
  {
    LogRuns(cfg, Given(Executing(Deferring).x, s.job));
  }

  /** For every number of deferrals there is a history that reaches the bound. */
  lemma {:induction false} BoundIsAttained(cfg: Config, token: nat, d: nat)
    requires 1 <= cfg.maxAttempts <= U32_MAX
    ensures var events := DeferredThen(token, d, cfg.maxAttempts);
      && Reset !in events
      && Deferrals(cfg, NewJob(token), events) == d
      && HistoryRuns(cfg, NewJob(token), events) == d + cfg.maxAttempts
    decreases d
  {
    var s, events := NewJob(token), DeferredThen(token, d, cfg.maxAttempts);
    if d == 0 {
      AttemptsRun(cfg, s, cfg.maxAttempts);
    } else {
      var rest := DeferredThen(token + 1, d - 1, cfg.maxAttempts);
      DeferredRun(cfg, s);
      BoundIsAttained(cfg, token + 1, d - 1);
      assert events[1..] == [Arrive(token)] + rest && events[1..][1..] == rest;
    }
  }

  /** The largest limit is no limit: without any deferral the executor can run any number of times. */
  lemma LargestLimitIsNone(cfg: Config, token: nat, n: nat)
    requires cfg.maxAttempts == U32_MAX
    ensures HistoryRuns(cfg, NewJob(token), Attempts(n)) == n && Deferrals(cfg, NewJob(token), Attempts(n)) == 0
  {
    AttemptsRun(cfg, NewJob(token), n);
  }

  // ---------------------------------------------------------------- readiness

  const SOURCES: nat := 15

  datatype Health = Healthy | Unavailable

  /** What one iteration learned about each dependency source. */
  type Evidence = e: seq<Option<Health>> | |e| == SOURCES witness seq(SOURCES, _ => None)

  datatype Report = Report(cancelled: bool, evidence: Evidence)

  /** The latest report that mentions a source, cancelled ones aside, decides its health. */
  function LatestSays(history: seq<Report>, source: nat): Option<Health>
    requires source < SOURCES
  {
    if history == [] then None
    else
      var last := history[|history| - 1];
      if !last.cancelled && last.evidence[source].Some? then last.evidence[source]
      else LatestSays(history[..|history| - 1], source)
  }

  ghost predicate DegradedBy(history: seq<Report>) {
    exists source :: 0 <= source < SOURCES && LatestSays(history, source) == Some(Unavailable)
  }

  class ReadinessRecovery {
    var degraded: array<bool>
    var reported: Option<bool>   // last recorded evidence: Some(true) is a transient failure
    ghost var history: seq<Report>

    /** A source is degraded exactly when the latest evidence about it said so, and the worker is
        reported degraded exactly when some source is. */
    ghost predicate Valid()
      reads this, degraded
    {
      && degraded.Length == SOURCES
      && (forall source :: 0 <= source < SOURCES ==>
            (degraded[source] <==> LatestSays(history, source) == Some(Unavailable)))
      && (reported.Some? ==> (reported.value <==> DegradedBy(history)))
    }

    constructor ()
      ensures Valid() && fresh(degraded) && history == [] && reported == None
    {
      degraded := new bool[SOURCES](_ => false);
      history, reported := [], None;
    }

    /** `record_outcome`: after any run of reports, a fold over the latest evidence. */
    method RecordOutcome(report: Report)
      requires Valid()
      modifies this`history, this`reported, degraded
      ensures Valid() && history == old(history) + [report]
      ensures report.cancelled ==> reported == old(reported)
      ensures !report.cancelled ==> reported == Some(DegradedBy(history))
      ensures forall source :: 0 <= source < SOURCES && (report.cancelled || report.evidence[source].None?) ==>
                degraded[source] == old(degraded[source])
    {
      ghost var before := history;
      history := history + [report];
      assert history[..|history| - 1] == before;
      if report.cancelled {
        SameDegradation(before, report);
        return;
      }
      for i := 0 to SOURCES
        invariant history == before + [report]
        invariant forall k :: 0 <= k < i ==> (degraded[k] <==> LatestSays(history, k) == Some(Unavailable))
        invariant forall k :: 0 <= k < SOURCES && (i <= k || report.evidence[k].None?) ==>
            degraded[k] == old(degraded[k])
      {
        match report.evidence[i] {
          case Some(Healthy) => degraded[i] := false;
          case Some(Unavailable) => degraded[i] := true;
          case None =>
        }
      }
      var any := false;
      for i := 0 to SOURCES
        invariant history == before + [report]
        invariant forall k :: 0 <= k < SOURCES ==> (degraded[k] <==> LatestSays(history, k) == Some(Unavailable))
        invariant forall k :: 0 <= k < SOURCES && report.evidence[k].None? ==> degraded[k] == old(degraded[k])
        invariant any <==> exists k :: 0 <= k < i && degraded[k]
      {
        if degraded[i] { any := true; }
      }
      reported := Some(any);
    }
  }

  lemma SameDegradation(before: seq<Report>, report: Report)
    requires report.cancelled
    ensures forall source :: 0 <= source < SOURCES ==>
        LatestSays(before + [report], source) == LatestSays(before, source)
    ensures DegradedBy(before + [report]) <==> DegradedBy(before)
  {
    assert (before + [report])[..|before|] == before;
  }

  /** Progress on one source never clears another. */
  lemma OtherSourcesStay(history: seq<Report>, report: Report, source: nat)
    requires source < SOURCES && report.evidence[source].None?
    ensures LatestSays(history + [report], source) == LatestSays(history, source)
  {
    assert (history + [report])[..|history|] == history;
  }
}
