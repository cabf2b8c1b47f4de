/** What becomes of a task: how it can end, that it can always still be published, and what its
    lease, its revision and the ticks of its workers say about it. */
module PublicationLiveness {
  import opened Common
  import opened Publication
  import opened PublicationSafety
  import opened PublicationTheorems

  // ---------------------------------------------------------------- how a task ends

  /** The step durably records that task `t` did not meet its policy. */
  predicate Refutes(s: State, a: Action, t: nat)
    requires Enabled(s, a)
  {
    a.Persist? && a.root.Unsatisfied? && Effective(a.reply) && s.workers[a.w].pc.held.task == t
  }

  predicate HasEnded(s: State, t: nat) { t in s.tasks && s.tasks[t].status == Ended }

  lemma EndsByVerdict(s: State, a: Action, t: nat)
    requires Enabled(s, a) && !HasEnded(s, t)
    ensures HasEnded(Apply(s, a), t) ==> Refutes(s, a, t)
  {}

  ghost predicate EverRefuted(s: State, actions: seq<Action>, t: nat)
    requires Runs(s, actions)
    decreases |actions|
  {
    actions != [] && (Refutes(s, actions[0], t) || EverRefuted(Apply(s, actions[0]), actions[1..], t))
  }

  /** In every run, a task ends without publication only by a verdict against it: not by being
      rescheduled, released, reclaimed, nor by any crash or lost reply. */
  lemma {:induction false} EndedOnlyByVerdict(s: State, actions: seq<Action>, t: nat)
    requires Runs(s, actions) && !HasEnded(s, t)
    ensures HasEnded(After(s, actions), t) ==> EverRefuted(s, actions, t)
    decreases |actions|
  {
    if actions != [] {
      EndsByVerdict(s, actions[0], t);
      if !HasEnded(Apply(s, actions[0]), t) { EndedOnlyByVerdict(Apply(s, actions[0]), actions[1..], t); }
    }
  }

  // ---------------------------------------------------------------- an undecided task can be published

  predicate Undecided(s: State, t: nat) {
    t in s.tasks && (s.tasks[t].status == Pending || s.tasks[t].status == InProgress)
  }

  /** Some undisturbed run completes the task with this very payload. */
  ghost predicate CompletableAs(s: State, t: nat, p: Payload) {
    exists actions :: Runs(s, actions) && Undisturbed(s, actions) && CompletedAs(After(s, actions), t, p)
  }

  predicate CompletedAs(s: State, t: nat, p: Payload) {
    t in s.tasks && s.tasks[t].status == Completed && s.tasks[t].payload == Some(p)
  }

  function Deciding(w: nat, t: nat, at: int): seq<Action> {
    Taking(w, t) + [LookAfterClaim(w), Persist(w, Satisfied(at), Applied)]
  }

  lemma Decides(s: State, w: nat, t: nat, at: int)
    requires !s.shutdown && w in s.workers && Undecided(s, t)
    ensures Runs(s, Deciding(w, t, at))
    ensures var s' := After(s, Deciding(w, t, at));
      && t in s'.tasks && s'.tasks[t].status == Publishing
      && s'.tasks[t].payload == Some(PayloadFor(s.tasks[t].identity, at))
      && w in s'.workers && !s'.shutdown && s'.store == s.store
  {
    TakesOver(s, w, t);
    ClaimedPublishes(After(s, Taking(w, t)), w, at);
    RunsConcat(s, Taking(w, t), [LookAfterClaim(w), Persist(w, Satisfied(at), Applied)]);
  }

  lemma CompletesFromScratch(s: State, w: nat, t: nat, at: int)
    requires Inv(s) && !s.shutdown && w in s.workers && Undecided(s, t)
    requires Insertable(s.store, PayloadFor(s.tasks[t].identity, at))
    ensures CompletableAs(s, t, PayloadFor(s.tasks[t].identity, at))
  {
    var decide := DecidesUndisturbed(s, w, t, at);
    var recover := RecoversAs(After(s, decide), w, t, PayloadFor(s.tasks[t].identity, at));
    Joins(s, decide, recover, t, PayloadFor(s.tasks[t].identity, at));
  }

  predicate NoOutsider(actions: seq<Action>) { forall a :: a in actions ==> !a.OtherWrite? }

  lemma DecidesUndisturbed(s: State, w: nat, t: nat, at: int) returns (decide: seq<Action>)
    requires Inv(s) && !s.shutdown && w in s.workers && Undecided(s, t)
    ensures NoOutsider(decide) && Runs(s, decide)
    ensures var s' := After(s, decide);
      && Inv(s') && !s'.shutdown && w in s'.workers && s'.store == s.store
      && t in s'.tasks && s'.tasks[t].status == Publishing
      && s'.tasks[t].payload == Some(PayloadFor(s.tasks[t].identity, at))
  {
    decide := Deciding(w, t, at);
    Decides(s, w, t, at);
    NobodyElseWrites(s, decide);
    RunKeepsInv(s, decide);
  }

  lemma RecoversAs(s: State, w: nat, t: nat, p: Payload) returns (recover: seq<Action>)
    requires Inv(s) && !s.shutdown && w in s.workers && t in s.tasks && s.tasks[t].status == Publishing
    requires s.tasks[t].payload == Some(p) && Insertable(s.store, p)
    ensures NoOutsider(recover) && Runs(s, recover) && CompletedAs(After(s, recover), t, p)
  {
    recover := Recovery(s, w, t);
    RecoveryCompletes(s, w, t);
    KeepsPayload(s, recover, t, p);
  }

  lemma KeepsPayload(s: State, actions: seq<Action>, t: nat, p: Payload)
    requires Inv(s) && Runs(s, actions) && NoOutsider(actions) && t in s.tasks && s.tasks[t].status == Publishing
    requires s.tasks[t].payload == Some(p)
    requires t in After(s, actions).tasks && After(s, actions).tasks[t].status == Completed
    ensures CompletedAs(After(s, actions), t, p)
  {
    NobodyElseWrites(s, actions);
    PublishedIsForever(s, actions);
  }

  lemma Joins(s: State, first: seq<Action>, rest: seq<Action>, t: nat, p: Payload)
    requires Runs(s, first) && Runs(After(s, first), rest) && NoOutsider(first) && NoOutsider(rest)
    requires CompletedAs(After(After(s, first), rest), t, p)
    ensures CompletableAs(s, t, p)
  {
    RunsConcat(s, first, rest);
    NobodyElseWrites(s, first + rest);
    assert CompletedAs(After(s, first + rest), t, p);
  }

  /** What is completed in an undisturbed run was insertable from the start. */
  lemma CompletedWasInsertable(s: State, actions: seq<Action>, t: nat, p: Payload)
    requires Inv(s) && Runs(s, actions) && Undisturbed(s, actions) && CompletedAs(After(s, actions), t, p)
    ensures Insertable(s.store, p)
  {
    RunKeepsInv(s, actions);
    PublishedIsForever(s, actions);
    assert TaskOk(After(s, actions), After(s, actions).tasks[t]);
  }

  /** From every reachable state without shutdown, a task still to be evaluated can be completed with
      any verification time, if and only if its path is free or already holds that very entry. */
  lemma UndecidedCompletableIff(s: State, w: nat, t: nat, at: int)
    requires Inv(s) && !s.shutdown && w in s.workers && Undecided(s, t)
    ensures CompletableAs(s, t, PayloadFor(s.tasks[t].identity, at))
       <==> Insertable(s.store, PayloadFor(s.tasks[t].identity, at))
  {
    var p := PayloadFor(s.tasks[t].identity, at);
    if Insertable(s.store, p) {
      CompletesFromScratch(s, w, t, at);
    } else {
      forall actions | Runs(s, actions) && Undisturbed(s, actions) ensures !CompletedAs(After(s, actions), t, p) {
        if CompletedAs(After(s, actions), t, p) { CompletedWasInsertable(s, actions, t, p); }
      }
    }
  }

  // ---------------------------------------------------------------- leases and revisions

  /** A task is in progress exactly while somebody holds its claim before a verdict, and fenced
      exactly while it is being published. */
  predicate LeaseOk(t: Task) {
    && (t.status == Pending || t.status == Completed || t.status == Ended ==> t.claim.None?)
    && (t.status == InProgress ==> t.claim.Some?)
    && (t.fence.Some? <==> t.status == Publishing)
  }

  ghost predicate LeasesAgree(s: State) { forall t :: t in s.tasks ==> LeaseOk(s.tasks[t]) }

  lemma StepKeepsLease(s: State, a: Action, t: nat)
    requires Core(s) && Enabled(s, a) && t in TasksAfter(s, a) && (t in s.tasks ==> LeaseOk(s.tasks[t]))
    ensures LeaseOk(TasksAfter(s, a)[t])
  {
    if a.Persist? || a.Schedule? || a.Complete? { assert PcOk(s, s.workers[a.w].pc); }
  }

  /** Over every undisturbed run, status, claim and fence agree. */
  lemma {:induction false} RunKeepsLeases(s: State, actions: seq<Action>)
    requires Inv(s) && LeasesAgree(s) && Runs(s, actions) && Undisturbed(s, actions)
    ensures LeasesAgree(After(s, actions))
    decreases |actions|
  {
    if actions != [] {
      var s' := Apply(s, actions[0]);
      forall t | t in s'.tasks ensures LeaseOk(s'.tasks[t]) { StepKeepsLease(s, actions[0], t); }
      StepKeepsInv(s, actions[0]);
      RunKeepsLeases(s', actions[1..]);
    }
  }

  /** The step durably stores an evaluation of `t`, whatever it found. */
  predicate Evaluates(s: State, a: Action, t: nat)
    requires Enabled(s, a)
  {
    (a.Persist? || a.Schedule?) && Effective(a.reply) && s.workers[a.w].pc.held.task == t
  }

  ghost function Evaluations(s: State, actions: seq<Action>, t: nat): nat
    requires Runs(s, actions)
    decreases |actions|
  {
    if actions == [] then 0
    else (if Evaluates(s, actions[0], t) then 1 else 0) + Evaluations(Apply(s, actions[0]), actions[1..], t)
  }

  lemma RevisionStep(s: State, a: Action, t: nat)
    requires Enabled(s, a) && t in s.tasks
    ensures t in TasksAfter(s, a)
    ensures TasksAfter(s, a)[t].revision == s.tasks[t].revision + if Evaluates(s, a, t) then 1 else 0
  {}

  /** In every run the revision counts the stored evaluations, and nothing else. */
  lemma {:induction false} RevisionCountsEvaluations(s: State, actions: seq<Action>, t: nat)
    requires Runs(s, actions) && t in s.tasks
    ensures t in After(s, actions).tasks
    ensures After(s, actions).tasks[t].revision == s.tasks[t].revision + Evaluations(s, actions, t)
    decreases |actions|
  {
    if actions != [] {
      RevisionStep(s, actions[0], t);
      RevisionCountsEvaluations(Apply(s, actions[0]), actions[1..], t);
    }
  }

  // ---------------------------------------------------------------- what a tick says

  /** The step ends its worker's tick on task `t` with the given report. */
  predicate Reports(s: State, a: Action, t: nat, tick: Tick)
    requires Enabled(s, a)
  {
    Actor(a).Some? && !s.workers[a.w].pc.Releasing? && PcAfter(s, a) == Done(t, tick)
  }

  /** Outside publication, a report says what the step did to the task: a retry put it back among
      the pending, an end was recorded, and after anything else it is as evaluated as before. */
  lemma ReportsAreTrue(s: State, a: Action, t: nat, tick: Tick)
    requires Inv(s) && Enabled(s, a) && Reports(s, a, t, tick)
    ensures tick.RetryScheduled? ==>
      Undecided(s, t) && TasksAfter(s, a)[t].status == Pending && TasksAfter(s, a)[t].claim.None?
    ensures tick.Terminal? ==> Undecided(s, t) && TasksAfter(s, a)[t].status == Ended
    ensures tick.ClaimLost? && t in s.tasks ==>
      TasksAfter(s, a)[t].revision == s.tasks[t].revision && TasksAfter(s, a)[t].payload == s.tasks[t].payload
    ensures tick != Published && tick != Deferred
  {
    if a.Persist? { PersistReports(s, a, t, tick); }
    else if a.Schedule? { ScheduleReports(s, a, t, tick); }
    else { OtherReports(s, a, t, tick); }
  }

  lemma PersistReports(s: State, a: Action, t: nat, tick: Tick)
    requires Inv(s) && Enabled(s, a) && a.Persist? && Reports(s, a, t, tick)
    ensures t in s.tasks && !tick.RetryScheduled? && tick != Published && tick != Deferred
    ensures tick.Terminal? ==> Undecided(s, t) && TasksAfter(s, a)[t].status == Ended
    ensures tick.ClaimLost? ==> TasksAfter(s, a) == s.tasks
  {
    assert PcOk(s, s.workers[a.w].pc);
  }

  lemma ScheduleReports(s: State, a: Action, t: nat, tick: Tick)
    requires Inv(s) && Enabled(s, a) && a.Schedule? && Reports(s, a, t, tick)
    ensures t in s.tasks && !tick.Terminal? && tick != Published && tick != Deferred
    ensures tick.RetryScheduled? ==>
      Undecided(s, t) && TasksAfter(s, a)[t].status == Pending && TasksAfter(s, a)[t].claim.None?
    ensures tick.ClaimLost? ==> TasksAfter(s, a) == s.tasks
  {
    assert PcOk(s, s.workers[a.w].pc);
  }

  lemma OtherReports(s: State, a: Action, t: nat, tick: Tick)
    requires Inv(s) && Enabled(s, a) && !a.Persist? && !a.Schedule? && Reports(s, a, t, tick)
    ensures tick.ClaimLost? || tick.Failed?
    ensures t in s.tasks ==>
      && t in TasksAfter(s, a) && TasksAfter(s, a)[t].revision == s.tasks[t].revision
      && TasksAfter(s, a)[t].payload == s.tasks[t].payload
  {
    if a.LookAfterClaim? { assert PcOk(s, s.workers[a.w].pc); }
  }

  /** And what was acknowledged is reported: a stored retry and a stored refusal end the tick so. */
  lemma AcknowledgedIsReported(s: State, a: Action, t: nat)
    requires Inv(s) && Enabled(s, a) && Evaluates(s, a, t) && a.reply.Applied?
    ensures TasksAfter(s, a)[t].status == Pending ==> Reports(s, a, t, RetryScheduled)
    ensures TasksAfter(s, a)[t].status == Ended ==> Reports(s, a, t, Terminal)
    ensures TasksAfter(s, a)[t].status == Publishing ==> PcAfter(s, a).Acquiring?
    ensures TasksAfter(s, a)[t].status in {Pending, Ended, Publishing}
  {
    assert PcOk(s, s.workers[a.w].pc);
  }
}
