/** One tick of the payment worker on a claimed pending task: `run_once_with_shutdown` and
    `handle_provider_error` in `payment_worker.rs`, over the snapshot of `models/payment_v2.rs` and
    its reducer. Instants are nanoseconds; the admission binding beyond creator, bundle and
    confirmations is constant and not modelled. */
module PaymentTask {
  import opened Common
  import opened GraphSnapshot

  const STATUS_REPOLL_SECONDS: int := 5

  datatype RequestState = Proposed | ProposalExpired | Accepted | Rejected | Canceled | ProofSubmitted
                        | ActiveRecurring | RecoveryRequired | InvalidConflict
  datatype PaymentState = Undetected | Detected | Confirmed | Lapsed
  datatype SampleState = NotSeen | Seen | Mined

  datatype Outpoint = Outpoint(txid: string, vout: nat)
  datatype Sample = Sample(at: int, state: SampleState, outpoint: Option<Outpoint>, confirmations: nat,
                           amountMatched: bool)

  datatype Status = Status(creator: string, bundleId: string, request: RequestState, payment: PaymentState,
                           invoiceCreatedAt: int, proposalExpiresAt: int, deadline: int,
                           minimumConfirmations: nat, current: Option<Sample>, first: Option<Sample>)

  datatype Invoice = NoInvoice | Created(createdAt: int, proposalExpiresAt: int)

  datatype Reason = UnavailableByDeadline | InvalidVerifierResponse | RequestRejected | RequestCanceled
                  | OfferExpired | DeadlineExpired | VerificationConflict

  datatype PayRoot = Waiting | Paid | Over(reason: Reason) | Broken(reason: Reason)

  datatype Payment = Payment(creator: string, bundleId: string, acceptedAt: int, deadlineAt: int,
                             minimumConfirmations: nat,
                             invoice: Invoice, status: Option<Status>,
                             failureCount: U32, failureTotal: U32, firstFailureAt: Option<int>,
                             lastFailureAt: Option<int>,
                             lastCategory: Option<Category>, lastHttpStatus: Option<nat>, nextDue: Option<int>,
                             root: PayRoot)

  // ---------------------------------------------------------------- validity

  predicate Micros(t: int) { t % 1000 == 0 }

  predicate HexLower(c: char) { '0' <= c <= '9' || 'a' <= c <= 'f' }

  predicate SampleOk(x: Sample) {
    && Micros(x.at) && x.confirmations <= 6
    && (x.outpoint.Some? ==> |x.outpoint.value.txid| == 64 && forall c :: c in x.outpoint.value.txid ==> HexLower(c))
    && match x.state
       case NotSeen => x.outpoint.None? && x.confirmations == 0 && !x.amountMatched
       case Seen => x.outpoint.Some? && x.confirmations == 0
       case Mined => x.outpoint.Some? && x.confirmations > 0
  }

  /** Evidence that the payment reached the policy's threshold in time. */
  predicate ThresholdOk(x: Sample, minimum: nat, deadline: int) {
    && SampleOk(x) && x.outpoint.Some? && x.amountMatched && x.confirmations >= minimum
    && x.at <= deadline && !x.state.NotSeen?
  }

  predicate StatusOk(u: Status) {
    && Micros(u.invoiceCreatedAt) && Micros(u.proposalExpiresAt) && Micros(u.deadline)
    && u.invoiceCreatedAt < u.proposalExpiresAt < u.deadline && u.minimumConfirmations <= 6
    && (u.current.Some? ==> SampleOk(u.current.value) && u.current.value.at >= u.invoiceCreatedAt)
    && (u.first.Some? ==>
          ThresholdOk(u.first.value, u.minimumConfirmations, u.deadline) && u.first.value.at >= u.invoiceCreatedAt)
  }

  /** `validate_against`: the provider may not move the goalposts. */
  predicate StatusFits(u: Status, p: Payment) {
    && StatusOk(u)
    && u.creator == p.creator && u.bundleId == p.bundleId && u.deadline == p.deadlineAt
    && u.minimumConfirmations == p.minimumConfirmations
    && p.invoice == Created(u.invoiceCreatedAt, u.proposalExpiresAt)
  }

  predicate FailuresValid(p: Payment) {
    if p.failureTotal == 0 then
      && p.failureCount == 0 && p.firstFailureAt.None? && p.lastFailureAt.None?
      && p.lastCategory.None? && p.lastHttpStatus.None?
    else
      && p.firstFailureAt.Some? && p.lastFailureAt.Some? && p.lastCategory.Some? && p.failureCount <= p.failureTotal
      && p.acceptedAt <= p.firstFailureAt.value <= p.lastFailureAt.value <= p.deadlineAt
  }

  /** `PaymentTaskSnapshotV1::validate`. */
  predicate PaymentOk(p: Payment) {
    && WindowOk(p.acceptedAt, p.deadlineAt)
    && p.minimumConfirmations <= 6
    && (p.invoice.Created? ==>
          && Micros(p.invoice.createdAt) && Micros(p.invoice.proposalExpiresAt)
          && p.acceptedAt <= p.invoice.createdAt <= p.invoice.proposalExpiresAt < p.deadlineAt)
    && (p.status.Some? ==> p.invoice.Created? && StatusFits(p.status.value, p))
    && FailuresValid(p)
    && (p.nextDue.Some? ==> p.nextDue.value <= p.deadlineAt)
  }

  predicate SameBinding(p: Payment, q: Payment) {
    && p.creator == q.creator && p.bundleId == q.bundleId
    && p.acceptedAt == q.acceptedAt && p.deadlineAt == q.deadlineAt
    && p.minimumConfirmations == q.minimumConfirmations
  }

  function FirstOf(p: Payment): Option<Sample> { if p.status.Some? then p.status.value.first else None }

  /** `validate_progress_from`, also what the repository demands of every write. */
  predicate Progress(next: Payment, current: Payment) {
    && PaymentOk(current) && PaymentOk(next)
    && (current.root != Waiting ==> next.root == current.root)
    && SameBinding(next, current)
    && (current.invoice.Created? ==> next.invoice == current.invoice)
    && (FirstOf(current).Some? ==> FirstOf(next) == FirstOf(current))
    && next.failureTotal >= current.failureTotal
  }

  // ---------------------------------------------------------------- the reducer

  predicate Live(r: RequestState) { r.Accepted? || r.ProofSubmitted? || r.ActiveRecurring? }

  function RootOf(u: Status, now: int, deadline: int): PayRoot {
    if u.first.Some? then (if Live(u.request) then Paid else Broken(InvalidVerifierResponse))
    else if u.request.Rejected? then Over(RequestRejected)
    else if u.request.Canceled? then Over(RequestCanceled)
    else if u.request.ProposalExpired? then Over(OfferExpired)
    else if Live(u.request) && u.payment.Lapsed? then Over(DeadlineExpired)
    else if u.request.InvalidConflict? then Broken(VerificationConflict)
    else if u.request.RecoveryRequired? then (if now >= deadline then Broken(UnavailableByDeadline) else Waiting)
    else if u.request.Proposed? && u.payment.Undetected? && now < u.proposalExpiresAt then Waiting
    else if Live(u.request) && now < deadline then Waiting
    else if u.request.Proposed? && u.payment.Undetected? && now >= deadline then Broken(UnavailableByDeadline)
    else if Live(u.request) then Broken(UnavailableByDeadline)
    else Broken(InvalidVerifierResponse)
  }

  /** `reduce_payment_snapshot`. */
  function ReducePayment(p: Payment, now: int): Result<Payment> {
    if !PaymentOk(p) then Err
    else if p.root != Waiting then Ok(p)
    else
      var q := if p.status.None?
               then (if now >= p.deadlineAt then p.(root := Broken(UnavailableByDeadline)) else p)
               else p.(root := RootOf(p.status.value, now, p.deadlineAt));
      if PaymentOk(q) then Ok(q) else Err
  }

  /** The reducer never fails on a valid snapshot, ends every task at its deadline, and grants
      payment if and only if the provider's evidence, valid against the task's own policy, shows
      the amount matched with enough confirmations by the deadline on a live request. */
  lemma PaymentReducer(p: Payment, now: int)
    requires PaymentOk(p) && p.root == Waiting
    ensures ReducePayment(p, now).Ok? && PaymentOk(ReducePayment(p, now).value)
    ensures ReducePayment(p, now).value == p.(root := ReducePayment(p, now).value.root)
    ensures now >= p.deadlineAt ==> ReducePayment(p, now).value.root != Waiting
    ensures ReducePayment(p, now).value.root == Paid <==>
      p.status.Some? && Live(p.status.value.request) && FirstOf(p).Some?
      && ThresholdOk(FirstOf(p).value, p.minimumConfirmations, p.deadlineAt)
  {
    var q := ReducePayment(p, now).value;
    assert q == p.(root := q.root);
  }

  /** Waiting never comes back, and the verdict on given evidence does not depend on when it is
      read, except in one case: a proposal left unanswered past its expiry reads as an invalid
      response before the deadline and as unavailable after it. */
  lemma VerdictIsTimeless(p: Payment, now: int, later: int)
    requires PaymentOk(p) && p.root == Waiting && now <= later
    ensures ReducePayment(p, now).Ok? && ReducePayment(p, later).Ok?
    ensures ReducePayment(p, now).value.root != Waiting ==>
      && ReducePayment(p, later).value.root != Waiting
      && (ReducePayment(p, later).value.root != ReducePayment(p, now).value.root <==>
            && p.status.Some? && p.status.value.first.None?
            && p.status.value.request.Proposed? && p.status.value.payment.Undetected?
            && p.status.value.proposalExpiresAt <= now < p.deadlineAt <= later)
  {
    PaymentReducer(p, now);
    PaymentReducer(p, later);
  }

  /** The exception occurs: an unanswered proposal that expired after a second, read then and read
      at the deadline. */
  lemma ReadingTimeMatters()
    ensures exists p: Payment, now: int, later: int ::
      && PaymentOk(p) && p.root == Waiting && now <= later
      && ReducePayment(p, now) == Ok(p.(root := Broken(InvalidVerifierResponse)))
      && ReducePayment(p, later) == Ok(p.(root := Broken(UnavailableByDeadline)))
  {
    var u := Status("", "", Proposed, Undetected, 0, SECOND, 60 * SECOND, 0, None, None);
    var p := Payment("", "", 0, 60 * SECOND, 0, Created(0, SECOND), Some(u), 0, 0, None, None, None, None, None,
                     Waiting);
    assert PaymentOk(p) && FirstOf(p).None?;
    PaymentReducer(p, SECOND);
    PaymentReducer(p, 60 * SECOND);
    assert ReducePayment(p, SECOND) == Ok(p.(root := Broken(InvalidVerifierResponse)));
    assert ReducePayment(p, 60 * SECOND) == Ok(p.(root := Broken(UnavailableByDeadline)));
  }

  // ---------------------------------------------------------------- the tick

  datatype ErrorKind = InvalidResponse | Conflict | Retryable
  datatype CreateReply = CreateOk(createdAt: int, proposalExpiresAt: int, deadline: int)
                       | CreateErr(kind: ErrorKind, retryAfter: Option<nat>)
  datatype StatusReply = StatusIs(status: Status) | StatusErr(kind: ErrorKind, retryAfter: Option<nat>)

  /** The clock before and after the one provider call, and the answer to whichever was made. */
  datatype PayIn = PayIn(dispatchNow: int, create: CreateReply, poll: StatusReply, now: int)

  datatype PayOut = Persisted(task: Payment, now: int) | Rescheduled(task: Payment, now: int, due: int) | Failed

  function Sat(n: U32): U32 { if n >= U32_MAX then U32_MAX else n + 1 }

  /** `apply_create_response`. */
  function ApplyCreate(p: Payment, r: CreateReply): Result<Payment>
    requires r.CreateOk?
  {
    if p.invoice != NoInvoice || r.deadline != p.deadlineAt then Err
    else
      var q := p.(invoice := Created(r.createdAt, r.proposalExpiresAt));
      if Progress(q, p) then Ok(q) else Err
  }

  /** `apply_status`. */
  function ApplyStatus(p: Payment, u: Status): Result<Payment> {
    if !StatusFits(u, p) then Err
    else
      var q := p.(status := Some(u), failureCount := 0, nextDue := None);
      if Progress(q, p) then Ok(q) else Err
  }

  function ReduceAndPersist(p: Payment, now: int): PayOut {
    match ReducePayment(p, now)
    case Err => Failed
    case Ok(q) => Persisted(q, now)
  }

  function WithFailure(p: Payment, at: int): Payment {
    p.(failureCount := Sat(p.failureCount), failureTotal := Sat(p.failureTotal),
       firstFailureAt := if p.firstFailureAt.Some? then p.firstFailureAt else Some(at),
       lastFailureAt := Some(at), lastCategory := Some(Transport))
  }

  /** Seconds to wait: the provider's hint or the backoff table, clamped to [1, 60]. */
  function RetrySeconds(failures: U32, retryAfter: Option<nat>): nat {
    var seconds := if retryAfter.Some? then retryAfter.value else BackoffSeconds(failures);
    if seconds < 1 then 1 else if seconds > 60 then 60 else seconds
  }

  /** `handle_provider_error`. */
  function OnError(p: Payment, kind: ErrorKind, retryAfter: Option<nat>, at: int): PayOut {
    match kind
    case InvalidResponse => Persisted(p.(root := Broken(InvalidVerifierResponse)), at)
    case Conflict => Persisted(p.(root := Broken(VerificationConflict)), at)
    case Retryable =>
      var q := WithFailure(p, Min(at, p.deadlineAt));
      if at >= p.deadlineAt then ReduceAndPersist(q, at)
      else
        var due := Min(at + RetrySeconds(q.failureCount, retryAfter) * SECOND, p.deadlineAt);
        Rescheduled(q.(nextDue := Some(due)), at, due)
  }

  function OnCreate(p: Payment, r: CreateReply, now: int): PayOut {
    match r
    case CreateErr(kind, retryAfter) => OnError(p, kind, retryAfter, now)
    case CreateOk(_, _, _) =>
      match ApplyCreate(p, r)
      case Err => Persisted(p.(root := Broken(InvalidVerifierResponse)), now)
      case Ok(q) =>
        if now >= p.deadlineAt then ReduceAndPersist(q, now) else Rescheduled(q, now, Min(now + MILLI, p.deadlineAt))
  }

  function OnStatus(p: Payment, r: StatusReply, now: int): PayOut {
    match r
    case StatusErr(kind, retryAfter) => OnError(p, kind, retryAfter, now)
    case StatusIs(u) =>
      match ApplyStatus(p, u)
      case Err => Persisted(p.(root := Broken(InvalidVerifierResponse)), now)
      case Ok(q) =>
        match ReducePayment(q, now)
        case Err => Failed
        case Ok(z) =>
          if z.root == Waiting then Rescheduled(z, now, Min(now + STATUS_REPOLL_SECONDS * SECOND, z.deadlineAt))
          else Persisted(z, now)
  }

  function PayTick(p: Payment, t: PayIn): PayOut {
    if t.dispatchNow >= p.deadlineAt then ReduceAndPersist(p, t.dispatchNow)
    else if p.invoice == NoInvoice then OnCreate(p, t.create, t.now)
    else OnStatus(p, t.poll, t.now)
  }

  /** A task as the repository hands it out at `now`. */
  predicate PayStored(p: Payment, now: int) {
    && PaymentOk(p) && p.root == Waiting && p.acceptedAt <= now
    && (p.lastFailureAt.Some? ==> p.lastFailureAt.value <= now)
  }

  lemma FailureKeepsTask(p: Payment, now: int)
    requires PayStored(p, now)
    ensures var q := WithFailure(p, Min(now, p.deadlineAt)); PayStored(q, now) && Progress(q, p)
  {}

  lemma RetryIsGood(at: int, seconds: nat, deadline: int)
    requires at < deadline && seconds >= 1
    ensures GoodRetry(at, Min(at + seconds * SECOND, deadline), deadline)
  {}

  lemma BreakingIsProgress(p: Payment, now: int, reason: Reason)
    requires PayStored(p, now)
    ensures Progress(p.(root := Broken(reason)), p)
  {}

  lemma ReschedulingKeepsTask(p: Payment, now: int, due: int)
    requires PayStored(p, now) && due <= p.deadlineAt
    ensures var q := WithFailure(p, Min(now, p.deadlineAt)).(nextDue := Some(due)); PayStored(q, now) && Progress(q, p)
  {}

  lemma RetryOutcome(p: Payment, retryAfter: Option<nat>, now: int)
    requires PayStored(p, now) && now < p.deadlineAt
    ensures TickOutOk(p, OnError(p, Retryable, retryAfter, now), now)
  {
    var seconds := RetrySeconds(WithFailure(p, now).failureCount, retryAfter);
    RetryIsGood(now, seconds, p.deadlineAt);
    ReschedulingKeepsTask(p, now, Min(now + seconds * SECOND, p.deadlineAt));
  }

  lemma LateErrorOutcome(p: Payment, retryAfter: Option<nat>, now: int)
    requires PayStored(p, now) && now >= p.deadlineAt
    ensures TickOutOk(p, OnError(p, Retryable, retryAfter, now), now)
    ensures OnError(p, Retryable, retryAfter, now).Persisted?
  {
    FailureKeepsTask(p, now);
    PaymentReducer(WithFailure(p, p.deadlineAt), now);
  }

  lemma ErrorOutcome(p: Payment, kind: ErrorKind, retryAfter: Option<nat>, now: int)
    requires PayStored(p, now)
    ensures TickOutOk(p, OnError(p, kind, retryAfter, now), now)
    ensures now >= p.deadlineAt ==> OnError(p, kind, retryAfter, now).Persisted?
  {
    match kind
    case InvalidResponse => BreakingIsProgress(p, now, InvalidVerifierResponse);
    case Conflict => BreakingIsProgress(p, now, VerificationConflict);
    case Retryable =>
      if now >= p.deadlineAt { LateErrorOutcome(p, retryAfter, now); } else { RetryOutcome(p, retryAfter, now); }
  }

  /** An outcome the repository accepts: terminal when persisted, pending and well timed when
      rescheduled, and in both cases legitimate progress. */
  predicate TickOutOk(p: Payment, out: PayOut, now: int) {
    match out
    case Failed => false
    case Persisted(q, at) => q.root != Waiting && Progress(q, p)
    case Rescheduled(q, at, due) => at == now && PayStored(q, at) && Progress(q, p) && GoodRetry(at, due, p.deadlineAt)
  }

  lemma CreateOutcome(p: Payment, r: CreateReply, now: int)
    requires PayStored(p, now)
    ensures TickOutOk(p, OnCreate(p, r, now), now)
  {
    if r.CreateErr? {
      ErrorOutcome(p, r.kind, r.retryAfter, now);
    } else if ApplyCreate(p, r).Ok? {
      PaymentReducer(ApplyCreate(p, r).value, now);
    }
  }

  lemma StatusOutcome(p: Payment, r: StatusReply, now: int)
    requires PayStored(p, now)
    ensures TickOutOk(p, OnStatus(p, r, now), now)
  {
    if r.StatusErr? {
      ErrorOutcome(p, r.kind, r.retryAfter, now);
    } else if ApplyStatus(p, r.status).Ok? {
      PaymentReducer(ApplyStatus(p, r.status).value, now);
    }
  }

  /** What a tick does with any stored task and any provider answer, however malformed: it never
      fails; everything it persists is terminal (`persist` itself does not look) and everything it
      reschedules is pending, timed as the repository demands and progress from what was stored;
      at or past the deadline it ends the task. */
  lemma PayTickOutcome(p: Payment, t: PayIn)
    requires PayStored(p, t.dispatchNow) && t.dispatchNow <= t.now
    ensures var out := PayTick(p, t);
      && TickOutOk(p, out, t.now)
      && (t.dispatchNow >= p.deadlineAt ==> out.Persisted?)
      && (out.Rescheduled? ==> out.now < p.deadlineAt && out.task.deadlineAt == p.deadlineAt)
  {
    if t.dispatchNow >= p.deadlineAt {
      PaymentReducer(p, t.dispatchNow);
    } else {
      assert PayStored(p, t.now);
      CreateOutcome(p, t.create, t.now);
      StatusOutcome(p, t.poll, t.now);
    }
  }
}
