/** The payment worker's tick in the form of `payment_worker.rs`: the claimed snapshot is changed in
    place, field by field, until it is persisted or rescheduled. Proved equal to `PaymentTask.PayTick`,
    so everything stated there holds of this code. */
module PaymentWorker {
  import opened Common
  import opened GraphSnapshot
  import opened PaymentTask
  import opened PaymentMeaning

  /** `next` is `prev` with one more failure, at `when`; only the schedule and the verdict may differ
      besides. */
  predicate CountsFailure(prev: Payment, next: Payment, when: int) {
    && next.failureCount == Min(prev.failureCount + 1, U32_MAX)
    && next.failureTotal == Min(prev.failureTotal + 1, U32_MAX)
    && next.lastFailureAt == Some(when) && next.lastCategory == Some(Transport)
    && next.firstFailureAt == (if prev.firstFailureAt.Some? then prev.firstFailureAt else Some(when))
    && next == prev.(failureCount := next.failureCount, failureTotal := next.failureTotal,
                     firstFailureAt := next.firstFailureAt, lastFailureAt := next.lastFailureAt,
                     lastCategory := next.lastCategory, nextDue := next.nextDue, root := next.root)
  }

  /** What an error comes to, read off its outcome. */
  lemma ErrorMeans(p: Payment, kind: ErrorKind, retryAfter: Option<nat>, at: int)
    ensures var out := OnError(p, kind, retryAfter, at);
      && (out.Rescheduled? <==> kind.Retryable? && at < p.deadlineAt)
      && (out.Rescheduled? ==>
            && at < out.due <= p.deadlineAt && out.due <= at + 60 * SECOND
            && out.due == Min(at + Wait(out.task.failureCount, retryAfter) * SECOND, p.deadlineAt)
            && out.task.nextDue == Some(out.due) && out.task.root == p.root)
      && (kind.Retryable? && !out.Failed? ==> CountsFailure(p, out.task, Min(at, p.deadlineAt)))
      && (PayStored(p, at) ==> !out.Failed? && (out.Persisted? <==> out.task.root != Waiting))
  {
    if PayStored(p, at) { ErrorOutcome(p, kind, retryAfter, at); }
    RetrySecondsMeans(WithFailure(p, Min(at, p.deadlineAt)).failureCount, retryAfter);
  }

  class Worker {
    var task: Payment

    constructor (claimed: Payment)
      ensures task == claimed
    {
      task := claimed;
    }

    /** `reduce_payment_snapshot` in place; false is an invalid snapshot. */
    method Reduce(now: int) returns (ok: bool)
      modifies this
      ensures ok <==> ReducePayment(old(task), now).Ok?
      ensures ok ==> task == ReducePayment(old(task), now).value
    {
      var before := task;
      if !PaymentOk(task) { return false; }
      if task.root == Waiting {
        if task.status.Some? {
          task := task.(root := RootOf(task.status.value, now, task.deadlineAt));
        } else if now >= task.deadlineAt {
          task := task.(root := Broken(UnavailableByDeadline));
        }
      }
      ok := before.root != Waiting || PaymentOk(task);
    }

    method FinishWith(reason: Reason, now: int) returns (out: PayOut)
      modifies this
      ensures task == old(task).(root := Broken(reason)) && out == Persisted(task, now)
    {
      task := task.(root := Broken(reason));
      out := Persisted(task, now);
    }

    method ReduceAndStore(now: int) returns (out: PayOut)
      modifies this
      ensures out == ReduceAndPersist(old(task), now)
      ensures !out.Failed? ==> task == out.task
    {
      var ok := Reduce(now);
      out := if ok then Persisted(task, now) else Failed;
    }

    /** `handle_provider_error`. A retryable error is counted once, with saturation, dated no later
        than the deadline and without touching the first failure on record; it is rescheduled
        exactly when the deadline is still ahead, for a time after now, within a minute and not
        past the deadline. Any other error only ends the task, with the reason it calls for. */
    method HandleProviderError(kind: ErrorKind, retryAfter: Option<nat>, at: int) returns (out: PayOut)
      modifies this
      ensures out == OnError(old(task), kind, retryAfter, at)
      ensures !out.Failed? ==> task == out.task
      ensures out.Rescheduled? <==> kind.Retryable? && at < old(task).deadlineAt
      ensures out.Rescheduled? ==>
        && at < out.due <= task.deadlineAt && out.due <= at + 60 * SECOND
        && out.due == Min(at + Wait(task.failureCount, retryAfter) * SECOND, task.deadlineAt)
        && task.nextDue == Some(out.due) && task.root == old(task).root
      ensures kind.Retryable? && !out.Failed? ==> CountsFailure(old(task), task, Min(at, old(task).deadlineAt))
      ensures !kind.Retryable? ==>
        && out.Persisted?
        && task == old(task).(root := Broken(if kind.Conflict? then VerificationConflict else InvalidVerifierResponse))
      ensures PayStored(old(task), at) ==> !out.Failed? && (out.Persisted? <==> task.root != Waiting)
    {
      ErrorMeans(task, kind, retryAfter, at);
      match kind
      case InvalidResponse => out := FinishWith(InvalidVerifierResponse, at);
      case Conflict => out := FinishWith(VerificationConflict, at);
      case Retryable =>
        var failureAt := Min(at, task.deadlineAt);
        task := task.(failureCount := Sat(task.failureCount), failureTotal := Sat(task.failureTotal));
        if task.firstFailureAt.None? { task := task.(firstFailureAt := Some(failureAt)); }
        task := task.(lastFailureAt := Some(failureAt), lastCategory := Some(Transport));
        if at >= task.deadlineAt {
          out := ReduceAndStore(at);
        } else {
          var due := Min(at + RetrySeconds(task.failureCount, retryAfter) * SECOND, task.deadlineAt);
          task := task.(nextDue := Some(due));
          out := Rescheduled(task, at, due);
        }
    }

    /** `run_once_with_shutdown` on a claimed pending task: what it stores is the tick's outcome, and
        from any stored task that outcome is one the repository accepts. */
    method RunOnce(t: PayIn) returns (out: PayOut)
      modifies this
      ensures out == PayTick(old(task), t)
      ensures !out.Failed? ==> task == out.task
      ensures PayStored(old(task), t.dispatchNow) && t.dispatchNow <= t.now ==> TickOutOk(old(task), out, t.now)
      ensures PayStored(old(task), t.dispatchNow) && t.dispatchNow <= t.now && Polled(old(task), t) ==>
        var u := t.poll.status;
        && (task.root == Paid <==> Fits(old(task), u) && Live(u.request) && u.first.Some?)
        && (Fits(old(task), u) ==> task.status == Some(u))
    {
      if PayStored(task, t.dispatchNow) && t.dispatchNow <= t.now {
        PayTickOutcome(task, t);
        if Polled(task, t) { PollStores(task, t); }
      }
      if t.dispatchNow >= task.deadlineAt {
        out := ReduceAndStore(t.dispatchNow);
      } else if task.invoice == NoInvoice {
        out := Create(t.create, t.now);
      } else {
        out := Poll(t.poll, t.now);
      }
    }

    method Create(r: CreateReply, now: int) returns (out: PayOut)
      modifies this
      ensures out == OnCreate(old(task), r, now)
      ensures !out.Failed? ==> task == out.task
    {
      if r.CreateErr? {
        out := HandleProviderError(r.kind, r.retryAfter, now);
        return;
      }
      var applied := ApplyCreate(task, r);
      if applied.Err? {
        out := FinishWith(InvalidVerifierResponse, now);
        return;
      }
      task := applied.value;
      if now >= task.deadlineAt {
        out := ReduceAndStore(now);
      } else {
        out := Rescheduled(task, now, Min(now + MILLI, task.deadlineAt));
      }
    }

    method Poll(r: StatusReply, now: int) returns (out: PayOut)
      modifies this
      ensures out == OnStatus(old(task), r, now)
      ensures !out.Failed? ==> task == out.task
    {
      if r.StatusErr? {
        out := HandleProviderError(r.kind, r.retryAfter, now);
        return;
      }
      var applied := ApplyStatus(task, r.status);
      if applied.Err? {
        out := FinishWith(InvalidVerifierResponse, now);
        return;
      }
      task := applied.value;
      var ok := Reduce(now);
      if !ok { return Failed; }
      if task.root == Waiting {
        out := Rescheduled(task, now, Min(now + STATUS_REPOLL_SECONDS * SECOND, task.deadlineAt));
      } else {
        out := Persisted(task, now);
      }
    }
  }
}
