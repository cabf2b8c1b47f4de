/** What a graph tick comes to, in terms of the answers it was given: which observations it stores,
    when it grants the policy, how each answer changes its predicate and when it asks again. */
module GraphMeaning {
  import opened Common
  import opened GraphSnapshot
  import opened GraphObservations
  import opened GraphTick

  // ---------------------------------------------------------------- what a tick stores

  /** The snapshot a tick stores is the old one with every timely answer recorded in its own
      predicate, and a root; with nothing to ask, or too late to ask, nothing is recorded. */
  lemma TickStoresAnswers(s: Snapshot, t: TickIn)
    requires Stored(s, t.dispatchNow) && Plausible(s, t) && !Tick(s, t).Failed?
    ensures InFlight(s, t.joined)
    ensures t.dispatchNow < s.deadlineAt ==> Merges(s, t.joined, Tick(s, t).snapshot.(root := Pending))
    ensures t.dispatchNow >= s.deadlineAt ==> Tick(s, t).snapshot.(root := Pending) == s
    ensures Tick(s, t).now
         == if t.dispatchNow >= s.deadlineAt || !Asks(s, t.dispatchNow) then t.dispatchNow else t.reducedAt
  {
    TickOutcome(s, t);
    PlausibleIsRecordable(s, t);
    if t.dispatchNow >= s.deadlineAt {
      StoringOutcome(s, t.dispatchNow);
      ReducerDecidesExactly(s, t.dispatchNow);
    } else if DueIndices(s, t.dispatchNow, 0) != [] {
      var i := DueIndices(s, t.dispatchNow, 0)[0];
      assert i in DueIndices(s, t.dispatchNow, 0) && Due(s.predicates[i], t.dispatchNow);
      JoinIsPointwise(s, t.joined);
      JoinedIsStored(s, t);
      ReducedIsRooted(ApplyAll(s, t.joined).value, t.reducedAt);
    }
  }

  predicate Asks(s: Snapshot, now: int) { exists i :: 0 <= i < |s.predicates| && Due(s.predicates[i], now) }

  lemma ReducedIsRooted(r: Snapshot, now: int)
    requires Stored(r, now)
    ensures !ReduceThenStore(r, now).Failed? && ReduceThenStore(r, now).snapshot.(root := Pending) == r
    ensures ReduceThenStore(r, now).now == now
  {
    StoringOutcome(r, now);
    ReducerDecidesExactly(r, now);
  }

  // ---------------------------------------------------------------- when a tick grants

  /** Predicate `i` was seen true before, or is by one of this tick's timely answers. */
  ghost predicate SeenTrue(s: Snapshot, t: TickIn, i: nat)
    requires i < |s.predicates|
  {
    s.predicates[i].firstTrue.Some? ||
    exists k :: 0 <= k < |t.joined| && t.joined[k].index == i && Timely(s, t.joined[k]) && SaysTrue(t.joined[k])
  }

  predicate SaysTrue(j: Joined) { j.seen.Answer? && j.seen.value }

  lemma MergedTruth(s: Snapshot, t: TickIn, r: Snapshot, i: nat)
    requires Stored(s, t.dispatchNow) && Plausible(s, t) && InFlight(s, t.joined) && Merges(s, t.joined, r)
    requires i < |s.predicates|
    ensures r.predicates[i].firstTrue.Some? <==> SeenTrue(s, t, i)
  {
    if k :| 0 <= k < |t.joined| && Timely(s, t.joined[k]) && t.joined[k].index == i {
      assert Touched(s.predicates[i], t.joined[k], s.deadlineAt) == Ok(r.predicates[i]);
      assert Due(s.predicates[i], t.dispatchNow);
      forall l | 0 <= l < |t.joined| && t.joined[l].index == i ensures l == k {
        assert DistinctIndices(t.joined);
      }
    }
  }

  /** The policy's formula over what has been seen true. */
  ghost predicate PolicyTrue(s: Snapshot, t: TickIn) {
    if s.operator == Some(Or) then exists i :: 0 <= i < |s.predicates| && SeenTrue(s, t, i)
    else forall i :: 0 <= i < |s.predicates| ==> SeenTrue(s, t, i)
  }

  ghost predicate StoredTrue(s: Snapshot) {
    if s.operator == Some(Or) then exists i :: 0 <= i < |s.predicates| && s.predicates[i].firstTrue.Some?
    else forall i :: 0 <= i < |s.predicates| ==> s.predicates[i].firstTrue.Some?
  }

  lemma GrantsReduced(r: Snapshot, now: int)
    requires Stored(r, now)
    ensures ReduceThenStore(r, now) == Persist(r.(root := Satisfied), now) <==> StoredTrue(r)
  {
    StoringOutcome(r, now);
    SatisfiedMeansTrue(r, now);
    ReducedIsRooted(r, now);
  }

  lemma MergedPolicy(s: Snapshot, t: TickIn, r: Snapshot)
    requires Stored(s, t.dispatchNow) && Plausible(s, t) && InFlight(s, t.joined) && Merges(s, t.joined, r)
    ensures StoredTrue(r) <==> PolicyTrue(s, t)
  {
    forall i | 0 <= i < |s.predicates| ensures r.predicates[i].firstTrue.Some? <==> SeenTrue(s, t, i) {
      MergedTruth(s, t, r, i);
    }
  }

  ghost predicate Granted(out: TickOut) { out.Persist? && out.snapshot.root == Satisfied }

  /** Before the deadline a tick that asks grants the policy if and only if its formula holds of the
      predicates already seen true together with the true answers of this tick. */
  lemma TickGrantsIff(s: Snapshot, t: TickIn)
    requires Stored(s, t.dispatchNow) && Plausible(s, t) && !Overflows(s, t)
    requires t.dispatchNow < s.deadlineAt && Asks(s, t.dispatchNow)
    ensures Granted(Tick(s, t)) <==> PolicyTrue(s, t)
  {
    var r := TickReducesMerged(s, t);
    MergedPolicy(s, t, r);
    GrantsReduced(r, t.reducedAt);
    ReducedIsRooted(r, t.reducedAt);
  }

  /** A tick that asks reduces the snapshot with its answers merged in. */
  lemma TickReducesMerged(s: Snapshot, t: TickIn) returns (r: Snapshot)
    requires Stored(s, t.dispatchNow) && Plausible(s, t) && !Overflows(s, t)
    requires t.dispatchNow < s.deadlineAt && Asks(s, t.dispatchNow)
    ensures InFlight(s, t.joined) && Merges(s, t.joined, r) && Stored(r, t.reducedAt)
    ensures Tick(s, t) == ReduceThenStore(r, t.reducedAt)
  {
    AnswersMerge(s, t);
    r := ApplyAll(s, t.joined).value;
    AskingReduces(s, t);
  }

  lemma AskingReduces(s: Snapshot, t: TickIn)
    requires t.dispatchNow < s.deadlineAt && Asks(s, t.dispatchNow) && ApplyAll(s, t.joined).Ok?
    ensures Tick(s, t) == ReduceThenStore(ApplyAll(s, t.joined).value, t.reducedAt)
  {
    var i :| 0 <= i < |s.predicates| && Due(s.predicates[i], t.dispatchNow);
    assert i in DueIndices(s, t.dispatchNow, 0);
  }

  lemma AnswersMerge(s: Snapshot, t: TickIn)
    requires Stored(s, t.dispatchNow) && Plausible(s, t) && !Overflows(s, t) && t.dispatchNow < s.deadlineAt
    ensures InFlight(s, t.joined) && ApplyAll(s, t.joined).Ok?
    ensures Merges(s, t.joined, ApplyAll(s, t.joined).value) && Stored(ApplyAll(s, t.joined).value, t.reducedAt)
  {
    PlausibleIsRecordable(s, t);
    JoinIsPointwise(s, t.joined);
    JoinedIsStored(s, t);
  }

  /** At the deadline it grants on what was seen before, and asks nobody. */
  lemma LateTickGrantsIff(s: Snapshot, t: TickIn)
    requires Stored(s, t.dispatchNow) && t.dispatchNow >= s.deadlineAt
    ensures Granted(Tick(s, t)) <==> StoredTrue(s)
  {
    GrantsReduced(s, t.dispatchNow);
    ReducedIsRooted(s, t.dispatchNow);
  }

  // ---------------------------------------------------------------- what is decided at the deadline

  predicate Held(p: Predicate) { p.firstTrue.Some? }

  predicate Invalid(p: Predicate) { p.terminalInvalid }

  /** Never seen true, and the last thing heard, if anything, was a plain no. */
  predicate NeverHeld(p: Predicate) {
    p.firstTrue.None? && !p.terminalInvalid && (p.latest.None? || p.latest.value.outcome == False)
  }

  /** Never seen true, and the last thing heard was that nobody could say. */
  predicate Unanswered(p: Predicate) {
    p.firstTrue.None? && !p.terminalInvalid && p.latest.Some? && p.latest.value.outcome == DependencyUnavailable
  }

  ghost predicate Somewhere(s: Snapshot, holds: Predicate -> bool) {
    exists i :: 0 <= i < |s.predicates| && holds(s.predicates[i])
  }

  /** The root at the deadline, from the evidence. One true predicate satisfies a disjunction and
      one that never held denies a conjunction, whatever became of the others; short of that, an
      invalid answer outweighs a missing one, and a missing one outweighs the rest. */
  lemma DeadlineRootMeans(s: Snapshot, now: int)
    requires Stored(s, now) && now >= s.deadlineAt
    ensures Reduce(s, now).Ok?
    ensures var root := Reduce(s, now).value.root;
      var yes, no := Somewhere(s, Held), Somewhere(s, NeverHeld);
      var bad, down := Somewhere(s, Invalid), Somewhere(s, Unanswered);
      if s.operator == Some(Or) then
        root == if yes then Satisfied else if bad then FailedInvalidResponse
                else if down then Expired(Unavailable) else Expired(NotObserved)
      else
        root == if no then Expired(NotObserved) else if bad then FailedInvalidResponse
                else if down then Expired(Unavailable) else Satisfied
  {
    ReducerDecidesExactly(s, now);
    TruthsOccur(s);
    CombinedRoot(s.operator, TerminalValues(s));
  }

  /** The table once more, with a single predicate read as a conjunction of one. */
  lemma CombinedRoot(op: Option<Operator>, v: seq<Truth>)
    requires |v| >= 1 && Unknown !in v && (op.None? ==> |v| == 1)
    ensures RootOfTerminal(TerminalCombine(op, v)) ==
      if op == Some(Or) then
        if Yes in v then Satisfied else if Bad in v then FailedInvalidResponse
        else if Down in v then Expired(Unavailable) else Expired(NotObserved)
      else
        if No in v then Expired(NotObserved) else if Bad in v then FailedInvalidResponse
        else if Down in v then Expired(Unavailable) else Satisfied
  {
    if op.None? { assert v == [v[0]]; }
  }

  lemma TruthMeans(p: Predicate, acceptedAt: int, deadlineAt: int)
    requires PredicateOk(p, acceptedAt, deadlineAt)
    ensures TerminalTruth(p) != Unknown
    ensures TerminalTruth(p) == Yes <==> Held(p)
    ensures TerminalTruth(p) == No <==> NeverHeld(p)
    ensures TerminalTruth(p) == Bad <==> Invalid(p)
    ensures TerminalTruth(p) == Down <==> Unanswered(p)
  {}

  lemma TruthsOccur(s: Snapshot)
    requires PredicatesOk(s)
    ensures var v := TerminalValues(s);
      && Unknown !in v && (Yes in v <==> Somewhere(s, Held)) && (No in v <==> Somewhere(s, NeverHeld))
      && (Bad in v <==> Somewhere(s, Invalid)) && (Down in v <==> Somewhere(s, Unanswered))
  {
    var v := TerminalValues(s);
    forall i | 0 <= i < |v|
      ensures v[i] != Unknown && (v[i] == Yes <==> Held(s.predicates[i]))
      ensures v[i] == No <==> NeverHeld(s.predicates[i])
      ensures v[i] == Bad <==> Invalid(s.predicates[i])
      ensures v[i] == Down <==> Unanswered(s.predicates[i])
    {
      TruthMeans(s.predicates[i], s.acceptedAt, s.deadlineAt);
    }
    Occurs(s, v, Yes, Held);
    Occurs(s, v, No, NeverHeld);
    Occurs(s, v, Bad, Invalid);
    Occurs(s, v, Down, Unanswered);
  }

  lemma Occurs(s: Snapshot, v: seq<Truth>, t: Truth, holds: Predicate -> bool)
    requires |v| == |s.predicates| && forall i :: 0 <= i < |v| ==> (v[i] == t <==> holds(s.predicates[i]))
    ensures t in v <==> Somewhere(s, holds)
  {}

  // ---------------------------------------------------------------- what an answer does to its predicate

  /** The seconds to wait after an operational failure, and whether they are jittered: a server's own
      wish, at most a minute, is taken as it is; otherwise 1, 2, 4, 8, 16, then 30 by turns. */
  function FailureDelay(j: Joined, failures: nat): nat
    requires j.seen.Operational?
  {
    match j.seen.retryAfter
    case Some(wish) => 1000 * (if wish <= 60 then wish else 60)
    case None =>
      j.jitter(if failures <= 1 then 1 else if failures == 2 then 2 else if failures == 3 then 4
               else if failures == 4 then 8 else if failures == 5 then 16 else 30)
  }

  /** Field by field: the answer becomes the latest observation; a true one is kept for good and ends
      the asking; a false one is asked again after five seconds, jittered; a failure is counted, in a
      row and in total, and asked again after its delay; a malformed answer ends the predicate; and
      any answer ends a row of failures. No question is put off past the deadline. */
  lemma AnswerMeans(p: Predicate, j: Joined, deadline: int)
    requires Open(p) && Touched(p, j, deadline).Ok?
    ensures var q := Touched(p, j, deadline).value;
      && q.id == p.id && q.latest == Some(ObservationOf(j))
      && q.firstTrue == (if SaysTrue(j) then Some(ObservationOf(j)) else None)
      && q.terminalInvalid == j.seen.Malformed?
      && (!j.seen.Operational? ==>
            && q.failureCount == 0 && q.failureTotal == p.failureTotal
            && q.firstFailureAt == p.firstFailureAt && q.lastFailureAt == p.lastFailureAt)
      && (j.seen.Answer? && !j.seen.value ==> q.nextDue == Some(Min(j.at + j.jitter(5) * MILLI, deadline)))
      && (SaysTrue(j) || j.seen.Malformed? ==> q.nextDue == None)
      && (j.seen.Operational? ==>
            && q.failureCount == Min(p.failureCount + 1, U32_MAX) && q.failureTotal == p.failureTotal + 1
            && q.firstFailureAt == (if p.firstFailureAt.Some? then p.firstFailureAt else Some(j.at))
            && q.lastFailureAt == Some(j.at) && q.lastCategory == Some(j.seen.category)
            && q.lastHttpStatus == j.seen.maybeStatus
            && q.nextDue == Some(Min(j.at + FailureDelay(j, q.failureCount) * MILLI, deadline)))
  {
    if j.seen.Operational? { BackoffTable(Min(p.failureCount + 1, U32_MAX)); }
  }

  lemma BackoffTable(failures: U32)
    ensures BackoffSeconds(failures) ==
      if failures <= 1 then 1 else if failures == 2 then 2 else if failures == 3 then 4
      else if failures == 4 then 8 else if failures == 5 then 16 else 30
  {}

  // ---------------------------------------------------------------- when it is asked again

  /** A predicate is asked about exactly when it is open and no later time was set for it. */
  lemma AskedIff(s: Snapshot, now: int, i: nat)
    requires i < |s.predicates|
    ensures i in DueIndices(s, now, 0) <==>
      var p := s.predicates[i];
      p.firstTrue.None? && !p.terminalInvalid && (p.nextDue.None? || p.nextDue.value <= now)
  {}

  /** A tick that ends in a retry asks for it at the time `RetryIsAtSoonest` describes, of the
      snapshot it stores. */
  lemma TickRetriesWhenDue(s: Snapshot, t: TickIn)
    requires Tick(s, t).Retry?
    ensures Tick(s, t).due == NextDue(Tick(s, t).snapshot, Tick(s, t).now)
  {}

  /** The retry falls at the soonest time set for an open predicate, but a millisecond away at least
      and at the deadline at the latest. */
  lemma RetryIsAtSoonest(s: Snapshot, now: int)
    requires now < s.deadlineAt
    ensures var due := NextDue(s, now);
      && (forall i :: 0 <= i < |s.predicates| && Open(s.predicates[i]) && s.predicates[i].nextDue.Some? ==>
            due <= s.predicates[i].nextDue.value || due == now + MILLI || due == s.deadlineAt < now + MILLI)
      && (due == now + MILLI || due == s.deadlineAt
          || exists i :: 0 <= i < |s.predicates| && Open(s.predicates[i]) && s.predicates[i].nextDue == Some(due))
      && (due == now + MILLI < s.deadlineAt ==>
            exists i :: 0 <= i < |s.predicates| && Open(s.predicates[i]) && s.predicates[i].nextDue.Some?
                        && s.predicates[i].nextDue.value <= now + MILLI)
  {
    var soonest := MinDue(s.predicates);
  }
}
