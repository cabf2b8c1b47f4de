/** `publish_claimed_entitlement` and `publish` as the straight-line code they are, run by one worker
    against the shared state of `Publication` while everybody else moves between any two of its
    port calls, and between the read and the write of its insert. What the others do and how each
    call ends are arbitrary functions. */
module PublicationProgram {
  import opened Common
  import opened Publication
  import opened PublicationSafety
  import opened PublicationTheorems

  /** How the n-th port call ends: normally, or with an error before, after or ahead of its write. */
  datatype Answer = Normal | ErrorAfterWrite | ErrorBeforeWrite | ErrorWriteLate

  function ReplyOf(answer: Answer, admissible: bool): (r: Reply)
    ensures Effective(r) ==> admissible
  {
    match answer
    case Normal => if admissible then Applied else Refused
    case ErrorAfterWrite => if admissible then LostReply else NoEffect
    case ErrorBeforeWrite => NoEffect
    case ErrorWriteLate => NoEffect
  }

  ghost predicate FollowProtocol(others: (nat, State) -> seq<Action>, w: nat) {
    forall n: nat, s: State ::
      && Runs(s, others(n, s)) && Undisturbed(s, others(n, s))
      && forall a :: a in others(n, s) ==> Actor(a) != Some(w)
  }

  lemma {:induction false} UndisturbedConcat(s: State, xs: seq<Action>, ys: seq<Action>)
    requires Runs(s, xs) && Undisturbed(s, xs) && Runs(After(s, xs), ys) && Undisturbed(After(s, xs), ys)
    ensures Runs(s, xs + ys) && Undisturbed(s, xs + ys) && After(s, xs + ys) == After(After(s, xs), ys)
    decreases |xs|
  {
    if xs == [] {
      assert xs + ys == ys;
    } else {
      assert (xs + ys)[1..] == xs[1..] + ys;
      UndisturbedConcat(Apply(s, xs[0]), xs[1..], ys);
    }
  }

  lemma ReleaseLeavesPub(s: State, w: nat, ok: bool, p: Pub, outcome: Tick)
    requires Inv(s) && w in s.workers && s.workers[w].pc == Releasing(p, outcome)
    ensures PubOk(Apply(s, Release(w, ok)), p)
  {
    assert PcOk(s, s.workers[w].pc);
  }

  class Publisher {
    const w: nat
    const others: (nat, State) -> seq<Action>
    const answer: nat -> Answer
    var state: State
    var calls: nat
    ghost const start: State
    ghost var trace: seq<Action>

    /** The others follow the protocol, stay off contended paths and never move this worker. */
    ghost predicate Foreign() { FollowProtocol(others, w) }

    /** `trace` is everything that happened since `start`, and a run. */
    ghost predicate Valid()
      reads this
    {
      && Foreign() && Inv(start) && Runs(start, trace) && Undisturbed(start, trace) && After(start, trace) == state
      && w in state.workers
    }

    ghost function Me(): Worker
      requires Valid()
      reads this
    {
      state.workers[w]
    }

    constructor (w: nat, state: State, others: (nat, State) -> seq<Action>, answer: nat -> Answer)
      requires Inv(state) && w in state.workers
      requires FollowProtocol(others, w)
      ensures Valid() && this.w == w && this.state == state && this.others == others && this.answer == answer
      ensures trace == []
    {
      this.w, this.state, this.others, this.answer := w, state, others, answer;
      calls, start, trace := 0, state, [];
    }

    method Perform(a: Action)
      requires Valid() && Enabled(state, a) && !Disturbs(state, a)
      modifies `state, `trace
      ensures Valid() && state == Apply(old(state), a) && trace == old(trace) + [a]
      ensures Me() == if Actor(a) == Some(w) then Moved(old(state), a) else old(Me())
    {
      RunsOne(state, a);
      assert [a][1..] == [];
      UndisturbedConcat(start, trace, [a]);
      StepMovesOnlyActor(state, a);
      state := Apply(state, a);
      trace := trace + [a];
    }

    /** The others move. */
    method Interfere(actions: seq<Action>)
      requires Valid() && Runs(state, actions) && Undisturbed(state, actions)
      requires forall a :: a in actions ==> Actor(a) != Some(w)
      modifies `state, `trace
      ensures Valid() && trace == old(trace) + actions && Me() == old(Me())
      decreases |actions|
    {
      if actions != [] {
        Perform(actions[0]);
        Interfere(actions[1..]);
      }
    }

    /** The others move, then this worker's next port call is answered. */
    method Turn() returns (answered: Answer)
      requires Valid()
      modifies `state, `calls, `trace
      ensures Valid() && old(trace) <= trace && Me() == old(Me()) && Inv(state)
    {
      Interfere(others(calls, state));
      RunKeepsInv(start, trace);
      answered := answer(calls);
      calls := calls + 1;
    }

    // One port call each: what it answers and where it leaves the worker.

    method AcquireAction(p: Pub) returns (r: Reply)
      requires Valid() && Me().pc == Acquiring(p)
      modifies `state, `calls, `trace
      ensures Valid() && old(trace) <= trace
      ensures Me() == if r.Applied? then old(Me()).(pc := Guarded(p), acquired := old(Me()).acquired + 1)
                      else old(Me()).(pc := Done(p.task, Unapplied(r)))
    {
      var answered := Turn();
      r := ReplyOf(answered, LiveFenced(state, p));
      r := if r.LostReply? then NoEffect else r;
      Perform(Acquire(w, r));
    }

    method SeeShutdown(p: Pub) returns (stopping: bool)
      requires Valid() && Me().pc == Guarded(p)
      modifies `state, `calls, `trace
      ensures Valid() && old(trace) <= trace
      ensures Me() == old(Me()).(pc := if stopping then BackingOut(p) else Reading(p))
    {
      var _ := Turn();
      stopping := state.shutdown;
      Perform(LookAfterAcquire(w));
    }

    method GetEntitlement(p: Pub) returns (ok: bool, existing: Option<Payload>)
      requires Valid() && Me().pc == Reading(p)
      modifies `state, `calls, `trace
      ensures Valid() && old(trace) <= trace
      ensures Me() == old(Me()).(pc := if ok then AfterGet(p, existing) else Releasing(p, Deferred))
    {
      var answered := Turn();
      ok, existing := answered.Normal?, GetV2(state.store, HandleOf(p.payload));
      Perform(Get(w, ok));
    }

    /** The read of the insert: a free path is to be written, an equal entry means there is nothing to do. */
    method LookBeforePut(p: Pub) returns (free: bool, done: bool)
      requires Valid() && Me().pc == Inserting(p)
      modifies `state, `calls, `trace
      ensures Valid() && old(trace) <= trace
      ensures Me() == old(Me()).(
        pc := if free then Putting(p) else if done then ReadingBack(p) else Releasing(p, Deferred))
    {
      var answered := Turn();
      free := answered.Normal? && HandleOf(p.payload) !in state.store;
      done := answered.Normal? && Holds(state.store, p.payload);
      Perform(InsertLook(w, answered.Normal?));
    }

    method PutEntitlement(p: Pub) returns (ok: bool)
      requires Valid() && Me().pc == Putting(p)
      modifies `state, `calls, `trace
      ensures Valid() && old(trace) <= trace
      ensures Me() == old(Me()).(pc := if ok then ReadingBack(p) else Releasing(p, Deferred))
    {
      var answered := Turn();
      ok := answered.Normal?;
      if answered.ErrorWriteLate? {
        Perform(PutLate(w));
      } else {
        var r := ReplyOf(answered, true);
        assert ok <==> r.Applied?;
        Perform(Put(w, r));
      }
    }

    /** `insert_verified_proof_bundle_v2`: others may act between its read and its write. */
    method InsertEntitlement(p: Pub) returns (ok: bool)
      requires Valid() && Me().pc == Inserting(p)
      modifies `state, `calls, `trace
      ensures Valid() && old(trace) <= trace
      ensures Me() == old(Me()).(pc := if ok then ReadingBack(p) else Releasing(p, Deferred))
    {
      var free, done := LookBeforePut(p);
      if !free { return done; }
      ok := PutEntitlement(p);
    }

    method ReadBackEntitlement(p: Pub) returns (ok: bool, readback: Option<Payload>)
      requires Valid() && Me().pc == ReadingBack(p)
      modifies `state, `calls, `trace
      ensures Valid() && old(trace) <= trace
      ensures Me() == old(Me()).(
        pc := if ok && readback == Some(p.payload) then Completing(p) else Releasing(p, Deferred))
    {
      var answered := Turn();
      ok, readback := answered.Normal?, GetV2(state.store, HandleOf(p.payload));
      Perform(ReadBack(w, ok));
    }

    method CompleteAction(p: Pub) returns (r: Reply)
      requires Valid() && Me().pc == Completing(p)
      modifies `state, `calls, `trace
      ensures Valid() && old(trace) <= trace
      ensures Me() == old(Me()).(pc := Releasing(p, if r.Applied? then Published else Unapplied(r)))
    {
      var answered := Turn();
      r := ReplyOf(answered, LiveFenced(state, p));
      Perform(Complete(w, r));
    }

    method ReleaseAction(p: Pub, outcome: Tick) returns (ok: bool)
      requires Valid() && Me().pc == Releasing(p, outcome)
      modifies `state, `calls, `trace
      ensures Valid() && old(trace) <= trace && PubOk(state, p)
      ensures Me() == old(Me()).(released := old(Me()).released + 1, pc := AfterRelease(p, outcome, ok))
    {
      var answered := Turn();
      ok := answered.Normal?;
      ReleaseLeavesPub(state, w, ok, p, outcome);
      Perform(Release(w, ok));
    }

    method ReleaseUnused(p: Pub) returns (ok: bool)
      requires Valid() && Me().pc == BackingOut(p)
      modifies `state, `calls, `trace
      ensures Valid() && old(trace) <= trace
      ensures Me() == old(Me()).(released := old(Me()).released + 1,
                                 pc := if ok then ReleasingClaim(p.task, p.token) else Done(p.task, Failed(Storage)))
    {
      var answered := Turn();
      ok := answered.Normal?;
      Perform(BackOut(w, ok));
    }

    method ReleaseLease(task: nat, token: nat) returns (r: Reply)
      requires Valid() && Me().pc == ReleasingClaim(task, token)
      modifies `state, `calls, `trace
      ensures Valid() && old(trace) <= trace
      ensures Me() == old(Me()).(pc := Done(task, if r.Applied? || r.Refused? then ClaimLost else Failed(Storage)))
    {
      var answered := Turn();
      r := ReplyOf(answered, task in state.tasks && state.tasks[task].claim == Some(token));
      Perform(ReleaseClaim(w, r));
    }

    method InsertAndReadBack(p: Pub) returns (ok: bool)
      requires Valid() && Me().pc == Inserting(p)
      modifies `state, `calls, `trace
      ensures Valid() && old(trace) <= trace
      ensures Me() == old(Me()).(pc := if ok then Completing(p) else Releasing(p, Deferred))
    {
      ok := InsertEntitlement(p);
      if ok {
        var readback;
        ok, readback := ReadBackEntitlement(p);
        ok := ok && readback == Some(p.payload);
      }
    }

    /** The outcome block: read, insert and read back when absent, complete. */
    method ConfirmAndComplete(p: Pub) returns (outcome: Tick)
      requires Valid() && Me().pc == Reading(p)
      modifies `state, `calls, `trace
      ensures Valid() && old(trace) <= trace
      ensures Me() == old(Me()).(pc := Releasing(p, outcome))
    {
      var ok, existing := GetEntitlement(p);
      if !ok { return Deferred; }
      if existing.Some? && existing.value != p.payload { return Failed(Conflict); }
      if existing.None? {
        ok := InsertAndReadBack(p);
        if !ok { return Deferred; }
      }
      var completed := CompleteAction(p);
      outcome := if completed.Applied? then Published else Unapplied(completed);
    }

    /** The whole publication. It is a run of the protocol ending where it says; an acquired guard
        is released exactly once whatever the calls answer; and what it reports is true: `Published`
        only when the task is completed and the store holds its payload, a conflict only when
        another entry occupies the path, never a missing payload. */
    method Publish(p: Pub) returns (tick: Tick)
      requires Valid() && Me().pc == Acquiring(p)
      modifies `state, `calls, `trace
      ensures Valid() && old(trace) <= trace
      ensures Me().pc == Done(p.task, tick) && Me().dropped == old(Me()).dropped
      ensures Me().acquired - old(Me()).acquired == Me().released - old(Me()).released <= 1
      ensures TickOk(state, p.task, tick)
      ensures tick == Published ==> PubOk(state, p) && Holds(state.store, p.payload)
    {
      var acquired := AcquireAction(p);
      if acquired.Applied? {
        tick := PublishGuarded(p);
      } else {
        tick := Unapplied(acquired);
      }
      Truthful(p, tick);
    }

    /** With the guard held: look at shutdown, then publish or back out, and release once. */
    method PublishGuarded(p: Pub) returns (tick: Tick)
      requires Valid() && Me().pc == Guarded(p)
      modifies `state, `calls, `trace
      ensures Valid() && old(trace) <= trace
      ensures Me() == old(Me()).(pc := Done(p.task, tick), released := old(Me()).released + 1)
      ensures tick == Published ==> PubOk(state, p)
    {
      var stopping := SeeShutdown(p);
      if stopping {
        tick := BackOutOfPublication(p);
      } else {
        var outcome := ConfirmAndComplete(p);
        var released := ReleaseAction(p, outcome);
        tick := if outcome.Failed? || released then outcome else Failed(Storage);
      }
    }

    /** Shutdown seen under the guard: give back the guard, then the claim. */
    method BackOutOfPublication(p: Pub) returns (tick: Tick)
      requires Valid() && Me().pc == BackingOut(p)
      modifies `state, `calls, `trace
      ensures Valid() && old(trace) <= trace && tick != Published
      ensures Me() == old(Me()).(pc := Done(p.task, tick), released := old(Me()).released + 1)
    {
      var released := ReleaseUnused(p);
      if !released { return Failed(Storage); }
      var lease := ReleaseLease(p.task, p.token);
      tick := if lease.Applied? || lease.Refused? then ClaimLost else Failed(Storage);
    }

    lemma Truthful(p: Pub, tick: Tick)
      requires Valid() && Me().pc == Done(p.task, tick)
      ensures TickOk(state, p.task, tick)
      ensures tick == Published ==>
        p.task in state.tasks && state.tasks[p.task].payload.Some?
            && Holds(state.store, state.tasks[p.task].payload.value)
    {
      RunKeepsInv(start, trace);
      if tick == Published { assert TaskOk(state, state.tasks[p.task]); }
    }
  }
}
