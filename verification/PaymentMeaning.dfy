/** What a payment tick comes to, in terms of what the provider answered: what is stored, when the
    payment is granted, why a task ends and when the provider is asked again. */
module PaymentMeaning {
  import opened Common
  import opened GraphSnapshot
  import opened PaymentTask

  // ---------------------------------------------------------------- why a task ends

  /** The verdict request by request. Evidence on a live request pays; evidence on any other is a
      broken response. Without evidence each dead request has its own reason, a live one ends when
      its payment lapses or the deadline passes, and an unanswered proposal may wait until it expires. */
  lemma VerdictPerRequest(u: Status, now: int)
    requires StatusOk(u)
    ensures var root := RootOf(u, now, u.deadline);
      && (u.first.Some? ==>
            root == if u.request in {Accepted, ProofSubmitted, ActiveRecurring} then Paid
                    else Broken(InvalidVerifierResponse))
      && (u.first.None? ==>
            match u.request
            case Rejected => root == Over(RequestRejected)
            case Canceled => root == Over(RequestCanceled)
            case ProposalExpired => root == Over(OfferExpired)
            case InvalidConflict => root == Broken(VerificationConflict)
            case RecoveryRequired => root == if now < u.deadline then Waiting else Broken(UnavailableByDeadline)
            case Proposed =>
              root == if u.payment != Undetected then Broken(InvalidVerifierResponse)
                      else if now < u.proposalExpiresAt then Waiting
                      else if now < u.deadline then Broken(InvalidVerifierResponse)
                      else Broken(UnavailableByDeadline)
            case _ =>
              root == if u.payment == Lapsed then Over(DeadlineExpired)
                      else if now < u.deadline then Waiting
                      else Broken(UnavailableByDeadline))
  {}

  // ---------------------------------------------------------------- an invoice is created

  /** The provider's invoice is for this task's deadline and lies inside its window. */
  predicate InvoiceFits(p: Payment, r: CreateReply)
    requires r.CreateOk?
  {
    && r.deadline == p.deadlineAt
    && r.createdAt % 1000 == 0 && r.proposalExpiresAt % 1000 == 0
    && p.acceptedAt <= r.createdAt <= r.proposalExpiresAt < p.deadlineAt
  }

  /** A fitting invoice is stored as it is, and its status asked for a millisecond later or, if it
      came too late, the task ends; any other ends the task as a broken response. */
  lemma CreateMeans(p: Payment, r: CreateReply, now: int)
    requires PayStored(p, now) && p.invoice == NoInvoice && r.CreateOk?
    ensures var created := p.(invoice := Created(r.createdAt, r.proposalExpiresAt));
      OnCreate(p, r, now)
      == if !InvoiceFits(p, r) then Persisted(p.(root := Broken(InvalidVerifierResponse)), now)
         else if now >= p.deadlineAt then Persisted(created.(root := Broken(UnavailableByDeadline)), now)
         else Rescheduled(created, now, Min(now + MILLI, p.deadlineAt))
  {
    assert ApplyCreate(p, r).Ok? <==> InvoiceFits(p, r);
    if ApplyCreate(p, r).Ok? { PaymentReducer(ApplyCreate(p, r).value, now); }
  }

  // ---------------------------------------------------------------- a status is polled

  /** The status is about this task and its invoice, is well formed, and keeps any evidence on record. */
  predicate Fits(p: Payment, u: Status) {
    StatusFits(u, p) && (FirstOf(p).Some? ==> u.first == FirstOf(p))
  }

  lemma AppliesIff(p: Payment, u: Status, now: int)
    requires PayStored(p, now)
    ensures ApplyStatus(p, u).Ok? <==> Fits(p, u)
    ensures Fits(p, u) ==> ApplyStatus(p, u).value == p.(status := Some(u), failureCount := 0, nextDue := None)
  {}

  /** A fitting status is stored with a clean slate of failures and the verdict it implies; while that
      is to wait, it is asked for again in five seconds or at the deadline. Any other ends the task. */
  lemma StatusMeans(p: Payment, u: Status, now: int)
    requires PayStored(p, now)
    ensures var out := OnStatus(p, StatusIs(u), now);
      var heard := p.(status := Some(u), failureCount := 0, nextDue := None, root := RootOf(u, now, p.deadlineAt));
      out == if !Fits(p, u) then Persisted(p.(root := Broken(InvalidVerifierResponse)), now)
             else if heard.root == Waiting then Rescheduled(heard, now, Min(now + 5 * SECOND, p.deadlineAt))
             else Persisted(heard, now)
  {
    AppliesIff(p, u, now);
    if Fits(p, u) { PaymentReducer(ApplyStatus(p, u).value, now); }
  }

  predicate Pays(out: PayOut) { out.Persisted? && out.task.root == Paid }

  /** Before the deadline a poll grants the payment if and only if the provider's status fits the
      task, is of a live request and carries threshold evidence; the evidence is then on record. */
  lemma PollPaysIff(p: Payment, t: PayIn)
    requires PayStored(p, t.dispatchNow) && t.dispatchNow <= t.now && t.dispatchNow < p.deadlineAt
    requires p.invoice.Created? && t.poll.StatusIs?
    ensures var u := t.poll.status;
      && (Pays(PayTick(p, t)) <==> Fits(p, u) && Live(u.request) && u.first.Some?)
      && (Pays(PayTick(p, t)) ==>
            PayTick(p, t).task.status == Some(u) && ThresholdOk(u.first.value, p.minimumConfirmations, p.deadlineAt))
  {
    assert PayStored(p, t.now);
    StatusMeans(p, t.poll.status, t.now);
    if Fits(p, t.poll.status) { VerdictPerRequest(t.poll.status, t.now); }
  }

  /** The tick asks for a status and is given one. */
  predicate Polled(p: Payment, t: PayIn) { t.dispatchNow < p.deadlineAt && p.invoice.Created? && t.poll.StatusIs? }

  lemma PollStores(p: Payment, t: PayIn)
    requires PayStored(p, t.dispatchNow) && t.dispatchNow <= t.now && Polled(p, t)
    ensures var (out, u) := (PayTick(p, t), t.poll.status);
      && !out.Failed? && (out.task.root == Paid <==> Fits(p, u) && Live(u.request) && u.first.Some?)
      && (Fits(p, u) ==> out.task.status == Some(u))
  {
    assert PayStored(p, t.now);
    StatusMeans(p, t.poll.status, t.now);
    PollPaysIff(p, t);
  }

  /** Nothing else pays: not the creation of an invoice, not an error, and at the deadline only
      evidence already on record. */
  lemma OtherwisePaysIff(p: Payment, t: PayIn)
    requires PayStored(p, t.dispatchNow) && t.dispatchNow <= t.now
    requires t.dispatchNow >= p.deadlineAt || p.invoice == NoInvoice || t.poll.StatusErr?
    ensures Pays(PayTick(p, t)) ==> p.status.Some? && Live(p.status.value.request) && FirstOf(p).Some?
    ensures t.dispatchNow >= p.deadlineAt && p.status.Some? && Live(p.status.value.request) && FirstOf(p).Some? ==>
      Pays(PayTick(p, t))
  {
    assert PayStored(p, t.now);
    if t.dispatchNow >= p.deadlineAt {
      PaymentReducer(p, t.dispatchNow);
    } else if p.invoice == NoInvoice {
      if t.create.CreateOk? {
        CreateMeans(p, t.create, t.now);
      } else {
        ErrorPaysIff(p, t.create.kind, t.create.retryAfter, t.now);
      }
    } else {
      ErrorPaysIff(p, t.poll.kind, t.poll.retryAfter, t.now);
    }
  }

  lemma ErrorPaysIff(p: Payment, kind: ErrorKind, retryAfter: Option<nat>, at: int)
    requires PayStored(p, at)
    ensures Pays(OnError(p, kind, retryAfter, at)) ==>
      p.status.Some? && Live(p.status.value.request) && FirstOf(p).Some?
  {
    if kind.Retryable? && at >= p.deadlineAt {
      FailureKeepsTask(p, at);
      PaymentReducer(WithFailure(p, p.deadlineAt), at);
    }
  }

  // ---------------------------------------------------------------- after an error

  /** The seconds to wait after the n-th failure in a row: the provider's wish between one second and
      a minute, or else 1, 2, 4, 8, 16, then 30. */
  function Wait(failures: nat, wish: Option<nat>): nat {
    match wish
    case Some(w) => if w == 0 then 1 else if w <= 60 then w else 60
    case None => if failures <= 1 then 1 else if failures == 2 then 2 else if failures == 3 then 4
                 else if failures == 4 then 8 else if failures == 5 then 16 else 30
  }

  lemma RetrySecondsMeans(failures: U32, wish: Option<nat>)
    ensures RetrySeconds(failures, wish) == Wait(failures, wish)
  {}
}
