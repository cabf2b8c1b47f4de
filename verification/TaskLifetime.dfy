/** Every verification task ends after boundedly many retries, under either worker. A retry is
    handed out no earlier than its due time; the repository stores `now + delay` on its own
    clock, clamped to the deadline. Ticks that crash or lose their claim write nothing. */
module TaskLifetime {
  import G = GraphTick
  import P = PaymentTask
  import opened Common
  import opened GraphSnapshot

  /** `schedule_*_task_retry`: the caller's delay re-based on the repository's clock. */
  function RepositoryDue(due: int, callerNow: int, wroteAt: int, deadline: int): int {
    var moved := wroteAt + (due - callerNow);
    if moved <= deadline then moved else deadline
  }

  /** Whole milliseconds left, rounded up: how many more retries can fit. */
  function RetriesLeft(due: int, deadline: int): nat {
    if due >= deadline then 0 else (deadline - due + MILLI - 1) / MILLI
  }

  lemma RetrySpendsBudget(due: int, callerNow: int, asked: int, wroteAt: int, deadline: int)
    requires due <= callerNow <= wroteAt && callerNow < asked <= deadline
    requires asked >= callerNow + MILLI || asked == deadline
    ensures RetriesLeft(RepositoryDue(asked, callerNow, wroteAt, deadline), deadline) < RetriesLeft(due, deadline)
    ensures var next := RepositoryDue(asked, callerNow, wroteAt, deadline);
      wroteAt < next || next == deadline
    ensures var next := RepositoryDue(asked, callerNow, wroteAt, deadline);
      next - wroteAt <= asked - callerNow && (next < deadline ==> next - wroteAt == asked - callerNow)
  {
    var next := RepositoryDue(asked, callerNow, wroteAt, deadline);
    assert next == deadline || next >= due + MILLI;
  }

  datatype GraphVisit = GraphVisit(tick: G.TickIn, wroteAt: int)

  /** A run of consecutive ticks of one graph task that all end in a retry. */
  ghost predicate GraphRetries(s: Snapshot, due: int, visits: seq<GraphVisit>)
    decreases |visits|
  {
    visits == [] ||
    var v := visits[0];
    && due <= v.tick.dispatchNow && G.Plausible(s, v.tick)
    && var out := G.Tick(s, v.tick);
    && out.Retry? && out.now <= v.wroteAt
    && GraphRetries(out.snapshot, RepositoryDue(out.due, out.now, v.wroteAt, s.deadlineAt), visits[1..])
  }

  /** One retry of a run: the task is stored again, due later, with a smaller budget. */
  lemma GraphRetryStep(s: Snapshot, due: int, visits: seq<GraphVisit>)
    requires G.Stored(s, due) && GraphRetries(s, due, visits) && visits != []
    ensures var v := visits[0];
      var out := G.Tick(s, v.tick);
      var due' := RepositoryDue(out.due, out.now, v.wroteAt, s.deadlineAt);
      && G.Stored(s, v.tick.dispatchNow) && G.Stored(out.snapshot, due') && out.snapshot.deadlineAt == s.deadlineAt
      && out.now < due' && RetriesLeft(due', s.deadlineAt) < RetriesLeft(due, s.deadlineAt)
  {
    var v := visits[0];
    G.TickOutcome(s, v.tick);
    var out := G.Tick(s, v.tick);
    RetrySpendsBudget(due, out.now, out.due, v.wroteAt, s.deadlineAt);
  }

  /** A graph task is rescheduled at most once per millisecond left to its deadline. */
  lemma {:induction false} GraphRetriesAreBounded(s: Snapshot, due: int, visits: seq<GraphVisit>)
    requires G.Stored(s, due) && GraphRetries(s, due, visits)
    ensures |visits| <= RetriesLeft(due, s.deadlineAt)
    decreases |visits|
  {
    if visits != [] {
      var v := visits[0];
      GraphRetryStep(s, due, visits);
      var out := G.Tick(s, v.tick);
      GraphRetriesAreBounded(out.snapshot, RepositoryDue(out.due, out.now, v.wroteAt, s.deadlineAt), visits[1..]);
    }
  }

  /** Every write of the run is one the repository lets through: legitimate progress, pending, and
      observed no later than the repository's own clock. */
  ghost predicate AllAccepted(s: Snapshot, visits: seq<GraphVisit>)
    decreases |visits|
  {
    visits == [] ||
    var out := G.Tick(s, visits[0].tick);
    && !out.Failed? && G.ProgressFrom(out.snapshot, s)
    && NotAfter(out.snapshot, visits[0].wroteAt) && out.snapshot.root == Pending
    && AllAccepted(out.snapshot, visits[1..])
  }

  /** Over any run of retries no snapshot is ever refused: a retry is due strictly after what it
      stored was observed, so no tick can rewrite an instant. */
  lemma {:induction false} RetriesAreAccepted(s: Snapshot, due: int, visits: seq<GraphVisit>)
    requires G.Stored(s, due) && GraphRetries(s, due, visits) && G.ObservedBefore(s, due)
    ensures AllAccepted(s, visits)
    decreases |visits|
  {
    if visits != [] {
      var v := visits[0];
      var out := G.Tick(s, v.tick);
      GraphRetryStep(s, due, visits);
      G.TickOutcome(s, v.tick);
      G.TickIsAccepted(s, v.tick);
      RetriesAreAccepted(out.snapshot, RepositoryDue(out.due, out.now, v.wroteAt, s.deadlineAt), visits[1..]);
    }
  }

  datatype PayVisit = PayVisit(tick: P.PayIn, wroteAt: int)

  ghost predicate PayRetries(p: P.Payment, due: int, visits: seq<PayVisit>)
    decreases |visits|
  {
    visits == [] ||
    var v := visits[0];
    && due <= v.tick.dispatchNow <= v.tick.now
    && var out := P.PayTick(p, v.tick);
    && out.Rescheduled? && out.now <= v.wroteAt
    && PayRetries(out.task, RepositoryDue(out.due, out.now, v.wroteAt, p.deadlineAt), visits[1..])
  }

  /** The same for a payment task, whatever its provider answers. */
  lemma {:induction false} PayRetriesAreBounded(p: P.Payment, due: int, visits: seq<PayVisit>)
    requires P.PayStored(p, due) && PayRetries(p, due, visits)
    ensures |visits| <= RetriesLeft(due, p.deadlineAt)
    decreases |visits|
  {
    if visits != [] {
      var v := visits[0];
      P.PayTickOutcome(p, v.tick);
      var out := P.PayTick(p, v.tick);
      RetrySpendsBudget(due, out.now, out.due, v.wroteAt, p.deadlineAt);
      PayRetriesAreBounded(out.task, RepositoryDue(out.due, out.now, v.wroteAt, p.deadlineAt), visits[1..]);
    }
  }

  lemma WholeSecondsBudget(from: int, to: int)
    requires WindowOk(from, to)
    ensures RetriesLeft(from, to) == (to - from) / MILLI <= 604_800_000
  {
    var n := (to - from) / SECOND;
    assert to - from == n * SECOND;
    SecondsInMillis(n);
  }

  lemma SecondsInMillis(n: nat)
    ensures n * SECOND / MILLI == n * 1000 == (n * SECOND + MILLI - 1) / MILLI
  {
    assert n * SECOND == (n * 1000) * MILLI;
  }

  /** In numbers: no graph task is retried more often than its window has milliseconds, and so
      never more than 604 800 000 times. */
  lemma GraphRetriesFitTheWindow(s: Snapshot, visits: seq<GraphVisit>)
    requires G.Stored(s, s.acceptedAt) && GraphRetries(s, s.acceptedAt, visits)
    ensures |visits| <= (s.deadlineAt - s.acceptedAt) / MILLI <= 604_800_000
  {
    GraphRetriesAreBounded(s, s.acceptedAt, visits);
    WholeSecondsBudget(s.acceptedAt, s.deadlineAt);
  }

  /** Nor is any payment task. */
  lemma PayRetriesFitTheWindow(p: P.Payment, visits: seq<PayVisit>)
    requires P.PayStored(p, p.acceptedAt) && PayRetries(p, p.acceptedAt, visits)
    ensures |visits| <= (p.deadlineAt - p.acceptedAt) / MILLI <= 604_800_000
  {
    PayRetriesAreBounded(p, p.acceptedAt, visits);
    WholeSecondsBudget(p.acceptedAt, p.deadlineAt);
  }

  // ---------------------------------------------------------------- no tick of a new task fails

  /** A task as it is admitted. */
  ghost predicate Pristine(s: Snapshot) {
    && Valid(s) && s.root == Pending
    && forall i :: 0 <= i < |s.predicates| ==>
         var p := s.predicates[i];
         p.latest.None? && p.firstTrue.None? && p.failureTotal == 0 && !p.terminalInvalid
  }

  /** The snapshot and the due time a run of retries leaves. */
  ghost function Reached(s: Snapshot, due: int, visits: seq<GraphVisit>): (Snapshot, int)
    requires GraphRetries(s, due, visits)
    decreases |visits|
  {
    if visits == [] then (s, due)
    else
      var out := G.Tick(s, visits[0].tick);
      Reached(out.snapshot, RepositoryDue(out.due, out.now, visits[0].wroteAt, s.deadlineAt), visits[1..])
  }

  lemma {:induction false} ReachedState(s: Snapshot, due: int, visits: seq<GraphVisit>, n: nat)
    requires G.Stored(s, due) && GraphRetries(s, due, visits) && G.FailuresAtMost(s, n)
    ensures var (s', due') := Reached(s, due, visits); G.Stored(s', due') && G.FailuresAtMost(s', n + |visits|)
    decreases |visits|
  {
    if visits != [] {
      var v := visits[0];
      var out := G.Tick(s, v.tick);
      GraphRetryStep(s, due, visits);
      G.TickCounts(s, v.tick, n);
      ReachedState(out.snapshot, RepositoryDue(out.due, out.now, v.wroteAt, s.deadlineAt), visits[1..], n + 1);
    }
  }

  /** No tick of any run from a new task fails: a week of milliseconds cannot exhaust a u32 count
      of failures. */
  lemma NoTickOfANewTaskFails(s: Snapshot, visits: seq<GraphVisit>, t: G.TickIn)
    requires Pristine(s) && GraphRetries(s, s.acceptedAt, visits)
    requires var (s', due) := Reached(s, s.acceptedAt, visits); due <= t.dispatchNow && G.Plausible(s', t)
    ensures !G.Tick(Reached(s, s.acceptedAt, visits).0, t).Failed?
  {
    PristineIsStored(s);
    GraphRetriesFitTheWindow(s, visits);
    ReachedState(s, s.acceptedAt, visits, 0);
    G.TickOutcome(Reached(s, s.acceptedAt, visits).0, t);
  }

  lemma PristineIsStored(s: Snapshot)
    requires Pristine(s)
    ensures G.Stored(s, s.acceptedAt) && G.FailuresAtMost(s, 0)
  {
    forall i | 0 <= i < |s.predicates|
      ensures G.HistoryOk(s.predicates[i]) && ObservedBy(s.predicates[i], s.acceptedAt)
    {
      assert PredicateOk(s.predicates[i], s.acceptedAt, s.deadlineAt);
    }
  }
}
