/** What fenced publication guarantees over whole runs, whatever the interleaving, the crashes,
    the lease reclaims and the writes that fail after taking effect or land late. What is said of
    the store holds as long as outside writers stay off contended paths, and exactly that long. */
module PublicationTheorems {
  import opened Common
  import opened Publication
  import opened PublicationSafety

  lemma {:induction false} RunKeepsInv(s: State, actions: seq<Action>)
    requires Inv(s) && Runs(s, actions) && Undisturbed(s, actions)
    ensures Inv(After(s, actions))
    decreases |actions|
  {
    if actions != [] {
      StepKeepsInv(s, actions[0]);
      RunKeepsInv(Apply(s, actions[0]), actions[1..]);
    }
  }

  lemma InitialInv(s: State)
    requires Initial(s)
    ensures Inv(s)
  {}

  /** The entry says in full what the task was admitted for: whose content, which lock and resource,
      for which reader, and what verified it. */
  predicate Entitles(e: Entry, id: Identity) {
    && e.V2? && e.payload.creator == id.creator && e.payload.reader == id.reader
    && e.payload.bundleId == id.bundleId && e.payload.resource == id.resource
    && e.payload.satisfiedBy == id.evaluator
  }

  /** Publication is exact. In every reachable state a completed task's durable payload is the
      one its admission calls for and the store holds exactly it, at the task's own path; a worker never finds a
      publishing task without payload or fence, reports `Published` only for a completed task and
      a conflict only where one exists. */
  lemma PublicationIsExact(s0: State, actions: seq<Action>)
    requires Initial(s0) && Runs(s0, actions) && Undisturbed(s0, actions)
    ensures var s := After(s0, actions);
      && (forall t :: t in s.tasks && s.tasks[t].status == Completed ==>
            exists at :: s.tasks[t].payload == Some(PayloadFor(s.tasks[t].identity, at))
                         && Holds(s.store, PayloadFor(s.tasks[t].identity, at)))
      && (forall t :: t in s.tasks && s.tasks[t].status == Completed ==>
            var id := s.tasks[t].identity;
            Handle(id.creator, id.bundleId) in s.store && Entitles(s.store[Handle(id.creator, id.bundleId)], id))
      && (forall w :: w in s.workers && s.workers[w].pc.Done? ==> TickOk(s, s.workers[w].pc.task, s.workers[w].pc.tick))
  {
    InitialInv(s0);
    RunKeepsInv(s0, actions);
    var s := After(s0, actions);
    forall t | t in s.tasks && s.tasks[t].status == Completed
      ensures exists at :: s.tasks[t].payload == Some(PayloadFor(s.tasks[t].identity, at))
                           && Holds(s.store, PayloadFor(s.tasks[t].identity, at))
    {
      assert TaskOk(s, s.tasks[t]);
      var at := s.tasks[t].payload.value.verifiedAt;
      assert s.tasks[t].payload == Some(PayloadFor(s.tasks[t].identity, at));
    }
  }

  predicate EntriesLast(s: State, s': State) {
    forall h :: h in s.store ==> h in s'.store && s'.store[h] == s.store[h]
  }

  /** Entries stay as they are; a task keeps its identity, its payload once set, and its completion. */
  ghost predicate Lasts(s: State, s': State) {
    && EntriesLast(s, s')
    && (forall t :: t in s.tasks ==>
          && t in s'.tasks && s'.tasks[t].identity == s.tasks[t].identity
          && (s.tasks[t].payload.Some? ==> s'.tasks[t].payload == s.tasks[t].payload)
          && (s.tasks[t].status == Completed ==> s'.tasks[t].status == Completed))
  }

  lemma EvolvedLasts(s: State, s': State, s'': State)
    requires Evolves(s, s') && Lasts(s', s'')
    ensures Lasts(s, s'')
  {}

  /** Published entries never change and completed tasks stay completed with the same payload,
      although an insert reads and writes in two steps and its write may land late. */
  lemma {:induction false} PublishedIsForever(s: State, actions: seq<Action>)
    requires Inv(s) && Runs(s, actions) && Undisturbed(s, actions)
    ensures Lasts(s, After(s, actions))
    decreases |actions|
  {
    if actions != [] {
      var s' := Apply(s, actions[0]);
      StepKeepsInv(s, actions[0]);
      PublishedIsForever(s', actions[1..]);
      EvolvedLasts(s, s', After(s', actions[1..]));
    }
  }

  // ---------------------------------------------------------------- exactly when entries last

  /** An outside write of `e` to `h`, and what undisturbed workers may do next, costs somebody an
      entry: the one that was there, or `e` itself. */
  ghost predicate CostsAnEntry(s: State, h: Handle, e: Entry) {
    var s' := Apply(s, OtherWrite(h, e));
    exists actions :: Runs(s', actions) && Undisturbed(s', actions)
                      && !(EntriesLast(s, After(s', actions)) && EntriesLast(s', After(s', actions)))
  }

  lemma WriterOverwrites(s: State, h: Handle, e: Entry, a: Action)
    requires Enabled(s, a) && Landed(s, a).Some? && s.store == s.store[h := e]
    requires HandleOf(Landed(s, a).value.payload) == h && V2(Landed(s, a).value.payload) != e
    ensures Runs(s, [a]) && Undisturbed(s, [a]) && !EntriesLast(s, After(s, [a]))
  {
    RunsOne(s, a);
    assert [a][1..] == [];
    assert s.store[h] == e && Apply(s, a).store[h] != e;
  }

  /** No entry is ever lost if and only if outside writers create their entries at paths that are
      free and that no worker has found free and not yet written to. */
  lemma OutsideWriteIsSafeIff(s: State, h: Handle, e: Entry)
    requires Inv(s)
    ensures CostsAnEntry(s, h, e) <==> Contended(s, h, e)
  {
    if Contended(s, h, e) { ContendedCosts(s, h, e); } else { UncontendedIsSafe(s, h, e); }
  }

  lemma ContendedCosts(s: State, h: Handle, e: Entry)
    requires Contended(s, h, e)
    ensures CostsAnEntry(s, h, e)
  {
    var s' := Apply(s, OtherWrite(h, e));
    if h in s.store && s.store[h] != e {
      assert Runs(s', []) && Undisturbed(s', []) && After(s', []) == s';
    } else if w :| w in s.workers && s.workers[w].pc.Putting?
                   && HandleOf(s.workers[w].pc.pub.payload) == h && V2(s.workers[w].pc.pub.payload) != e {
      PuttingCosts(s, h, e, w);
    } else {
      var i :| i in s.late && HandleOf(s.late[i].payload) == h && V2(s.late[i].payload) != e;
      LateCosts(s, h, e, i);
    }
  }

  lemma PuttingCosts(s: State, h: Handle, e: Entry, w: nat)
    requires w in s.workers && s.workers[w].pc.Putting?
    requires HandleOf(s.workers[w].pc.pub.payload) == h && V2(s.workers[w].pc.pub.payload) != e
    ensures CostsAnEntry(s, h, e)
  {
    WriterOverwrites(Apply(s, OtherWrite(h, e)), h, e, Put(w, Applied));
  }

  lemma LateCosts(s: State, h: Handle, e: Entry, i: nat)
    requires i in s.late && HandleOf(s.late[i].payload) == h && V2(s.late[i].payload) != e
    ensures CostsAnEntry(s, h, e)
  {
    WriterOverwrites(Apply(s, OtherWrite(h, e)), h, e, Land(i, true));
  }

  lemma UncontendedIsSafe(s: State, h: Handle, e: Entry)
    requires Inv(s) && !Contended(s, h, e)
    ensures !CostsAnEntry(s, h, e)
  {
    var s' := Apply(s, OtherWrite(h, e));
    StepKeepsInv(s, OtherWrite(h, e));
    forall actions | Runs(s', actions) && Undisturbed(s', actions)
      ensures EntriesLast(s, After(s', actions)) && EntriesLast(s', After(s', actions))
    {
      PublishedIsForever(s', actions);
    }
  }

  /** The loss is real: a worker that is about to read a free path reads it free twice, an outside
      writer creates an entry there, and the worker's write replaces it. */
  lemma OutsiderIsOverwritten(s: State, w: nat, e: Entry)
    requires w in s.workers && s.workers[w].pc.Reading? && HandleOf(s.workers[w].pc.pub.payload) !in s.store
    requires e != V2(s.workers[w].pc.pub.payload)
    ensures var h := HandleOf(s.workers[w].pc.pub.payload);
      var actions := [Get(w, true), InsertLook(w, true)] + [OtherWrite(h, e), Put(w, Applied)];
      && Runs(s, actions) && h in After(s, actions).store && After(s, actions).store[h] != e
  {
    var h := HandleOf(s.workers[w].pc.pub.payload);
    FindsFree(s, w);
    RunsTwo(After(s, [Get(w, true), InsertLook(w, true)]), OtherWrite(h, e), Put(w, Applied));
    RunsConcat(s, [Get(w, true), InsertLook(w, true)], [OtherWrite(h, e), Put(w, Applied)]);
  }

  function Empty(): State { State(map[], map[], map[0 := Worker(Idle, 0, 0, 0)], map[], 0, false) }

  /** From the empty system: somebody writes `e` to `h`, and later something else is there. */
  ghost predicate LosesEntry(actions: seq<Action>, h: Handle, e: Entry) {
    && Initial(Empty()) && Runs(Empty(), actions) && OtherWrite(h, e) in actions
    && h in After(Empty(), actions).store && After(Empty(), actions).store[h] != e
  }

  function FirstTask(id: Identity): seq<Action> {
    [Admit(0, id)] + Taking(0, 0) + [LookAfterClaim(0), Persist(0, Satisfied(0), Applied)]
  }

  lemma FirstTaskClaimed(id: Identity)
    ensures var claim := [Admit(0, id)] + Taking(0, 0);
      && Runs(Empty(), claim)
      && var s := After(Empty(), claim);
         && s.tasks == map[0 := Task(id, InProgress, 0, None, None, Some(0))] && s.store == map[] && !s.shutdown
         && 0 in s.workers && s.workers[0].pc == Claimed(Held(0, 0, s.tasks[0]))
  {
    FirstTaskAdmitted(id);
    TakesOver(After(Empty(), [Admit(0, id)]), 0, 0);
    RunsConcat(Empty(), [Admit(0, id)], Taking(0, 0));
  }

  lemma FirstTaskAdmitted(id: Identity)
    ensures Runs(Empty(), [Admit(0, id)])
    ensures After(Empty(), [Admit(0, id)]) == Empty().(tasks := map[0 := Task(id, Pending, 0, None, None, None)])
  {
    RunsOne(Empty(), Admit(0, id));
  }

  lemma ClaimedPublishes(s: State, w: nat, at: int)
    requires w in s.workers && s.workers[w].pc.Claimed? && !s.shutdown
    requires var h := s.workers[w].pc.held;
      && h.task in s.tasks && s.tasks[h.task] == h.record
      && h.record.status == InProgress && h.record.claim == Some(h.token)
    ensures var actions := [LookAfterClaim(w), Persist(w, Satisfied(at), Applied)];
      && Runs(s, actions)
      && var (h, s') := (s.workers[w].pc.held, After(s, actions));
         && w in s'.workers && s'.workers[w].pc.Acquiring? && LiveFenced(s', s'.workers[w].pc.pub)
         && h.task in s'.tasks && s'.tasks[h.task].status == Publishing
         && s'.tasks[h.task].payload == Some(PayloadFor(h.record.identity, at))
         && !s'.shutdown && s'.store == s.store
  {
    RunsTwo(s, LookAfterClaim(w), Persist(w, Satisfied(at), Applied));
  }

  lemma FirstTaskPublishes(id: Identity)
    ensures Runs(Empty(), FirstTask(id))
    ensures var s := After(Empty(), FirstTask(id));
      && 0 in s.workers && s.workers[0].pc.Acquiring? && LiveFenced(s, s.workers[0].pc.pub)
      && !s.shutdown && s.store == map[]
  {
    var claim := [Admit(0, id)] + Taking(0, 0);
    FirstTaskClaimed(id);
    ClaimedPublishes(After(Empty(), claim), 0, 0);
    RunsConcat(Empty(), claim, [LookAfterClaim(0), Persist(0, Satisfied(0), Applied)]);
  }

  /** A worker about to publish to a free path can be made to take an outside entry away. */
  lemma PublisherOverwrites(s: State, e: Entry)
    requires 0 in s.workers && s.workers[0].pc.Acquiring? && LiveFenced(s, s.workers[0].pc.pub) && !s.shutdown
    requires e.V1? && HandleOf(s.workers[0].pc.pub.payload) !in s.store
    ensures var h := HandleOf(s.workers[0].pc.pub.payload);
      var actions := [Acquire(0, Applied), LookAfterAcquire(0)]
                   + ([Get(0, true), InsertLook(0, true)] + [OtherWrite(h, e), Put(0, Applied)]);
      && Runs(s, actions) && h in After(s, actions).store && After(s, actions).store[h] != e
  {
    var h := HandleOf(s.workers[0].pc.pub.payload);
    var enter := [Acquire(0, Applied), LookAfterAcquire(0)];
    Enters(s, 0);
    OutsiderIsOverwritten(After(s, enter), 0, e);
    RunsConcat(s, enter, [Get(0, true), InsertLook(0, true)] + [OtherWrite(h, e), Put(0, Applied)]);
  }

  /** From an empty system: one task, one worker, and its first publication takes an entry away. */
  lemma OverwriteIsReachable(id: Identity, e: Entry)
    requires e.V1?
    ensures exists actions: seq<Action>, h: Handle :: LosesEntry(actions, h, e)
  {
    FirstTaskPublishes(id);
    var s := After(Empty(), FirstTask(id));
    PublisherOverwrites(s, e);
    var h := HandleOf(s.workers[0].pc.pub.payload);
    var rest := [Acquire(0, Applied), LookAfterAcquire(0)]
              + ([Get(0, true), InsertLook(0, true)] + [OtherWrite(h, e), Put(0, Applied)]);
    RunsConcat(Empty(), FirstTask(id), rest);
    assert OtherWrite(h, e) in rest by { assert rest[4] == OtherWrite(h, e); }
    assert LosesEntry(FirstTask(id) + rest, h, e);
  }

  // ---------------------------------------------------------------- guards, in every run

  ghost predicate AllBalance(s: State) { forall w :: w in s.workers ==> GuardsBalance(s.workers[w]) }

  lemma StepKeepsBalance(s: State, a: Action)
    requires AllBalance(s) && Enabled(s, a)
    ensures AllBalance(Apply(s, a))
  {
    StepMovesOnlyActor(s, a);
    if Actor(a).Some? {
      assert GuardsBalance(s.workers[Actor(a).value]);
      ActorKeepsBalance(s, a);
    }
  }

  lemma ActorKeepsBalance(s: State, a: Action)
    requires Enabled(s, a) && Actor(a).Some? && GuardsBalance(s.workers[a.w])
    ensures GuardsBalance(Moved(s, a))
  {}

  lemma {:induction false} RunKeepsBalance(s: State, actions: seq<Action>)
    requires AllBalance(s) && Runs(s, actions)
    ensures AllBalance(After(s, actions))
    decreases |actions|
  {
    if actions != [] {
      StepKeepsBalance(s, actions[0]);
      RunKeepsBalance(Apply(s, actions[0]), actions[1..]);
    }
  }

  /** Each acquired action guard gets exactly one release call on every path that does not crash:
      between ticks, the calls balance. */
  lemma GuardReleasedExactlyOnce(s0: State, actions: seq<Action>, w: nat)
    requires Initial(s0) && Runs(s0, actions) && w in After(s0, actions).workers
    ensures var k := After(s0, actions).workers[w];
      && (k.pc.Idle? || k.pc.Done? ==> k.acquired == k.released + k.dropped)
      && 0 <= k.acquired - k.released - k.dropped <= 1
  {
    RunKeepsBalance(s0, actions);
    assert GuardsBalance(After(s0, actions).workers[w]);
  }

  // ---------------------------------------------------------------- at most one completion, in every run

  ghost function Completions(s: State, actions: seq<Action>, t: nat): nat
    requires Runs(s, actions)
    decreases |actions|
  {
    if actions == [] then 0
    else (if Completes(s, actions[0], t) then 1 else 0) + Completions(Apply(s, actions[0]), actions[1..], t)
  }

  predicate Completes(s: State, a: Action, t: nat)
    requires Enabled(s, a)
  {
    a.Complete? && Effective(a.reply) && s.workers[a.w].pc.pub.task == t
  }

  /** A completed task is out of every worker's reach: nobody holds its claim. */
  predicate OverFor(s: State, t: nat) { t in s.tasks && s.tasks[t].status == Completed && s.tasks[t].claim.None? }

  ghost predicate CompletedAreOver(s: State) {
    forall t :: t in s.tasks && s.tasks[t].status == Completed ==> s.tasks[t].claim.None?
  }

  lemma OverStaysOver(s: State, a: Action, t: nat)
    requires OverFor(s, t) && Enabled(s, a)
    ensures OverFor(Apply(s, a), t) && !Completes(s, a, t)
  {}

  lemma CompletionIsOver(s: State, a: Action, t: nat)
    requires Enabled(s, a) && Completes(s, a, t)
    ensures OverFor(Apply(s, a), t)
  {}

  lemma StepKeepsOver(s: State, a: Action)
    requires CompletedAreOver(s) && Enabled(s, a)
    ensures CompletedAreOver(Apply(s, a))
  {}

  /** However many workers race, and whatever else is written to the store, a task is completed at
      most once. */
  lemma {:induction false} CompletedAtMostOnce(s: State, actions: seq<Action>, t: nat)
    requires CompletedAreOver(s) && Runs(s, actions)
    ensures Completions(s, actions, t) <= if OverFor(s, t) then 0 else 1
    decreases |actions|
  {
    if actions != [] {
      var a := actions[0];
      StepKeepsOver(s, a);
      if OverFor(s, t) { OverStaysOver(s, a, t); } else if Completes(s, a, t) { CompletionIsOver(s, a, t); }
      CompletedAtMostOnce(Apply(s, a), actions[1..], t);
    }
  }

  // ---------------------------------------------------------------- exactly when it can finish

  ghost predicate CanComplete(s: State, t: nat) {
    exists actions :: Runs(s, actions) && Undisturbed(s, actions)
                      && t in After(s, actions).tasks && After(s, actions).tasks[t].status == Completed
  }

  /** A conflicting entry, of either version, is never completed over. */
  lemma ConflictNeverCompletes(s: State, t: nat, actions: seq<Action>)
    requires Inv(s) && Blocked(s, t) && Runs(s, actions) && Undisturbed(s, actions)
    ensures Blocked(After(s, actions), t) && After(s, actions).tasks[t].status != Completed
  {
    RunKeepsInv(s, actions);
    PublishedIsForever(s, actions);
    assert TaskOk(After(s, actions), After(s, actions).tasks[t]);
  }

  function Entering(w: nat, t: nat): seq<Action> {
    Taking(w, t) + [LookAfterClaim(w)] + [Acquire(w, Applied), LookAfterAcquire(w)]
  }

  /** Wherever the worker was, it starts over, asks and is granted the claim. */
  function Taking(w: nat, t: nat): seq<Action> { [Crash(w), Ask(w)] + [Claim(w, t, Applied)] }

  /** `Get`, and when the entry is not there yet the insert and its read-back. */
  function Confirming(w: nat, present: bool): seq<Action> {
    [Get(w, true)] + (if present then [] else [InsertLook(w, true), Put(w, Applied), ReadBack(w, true)])
  }

  /** The schedule that finishes a publishing task with worker `w` alone: crash it, let it reclaim
      the lease, and follow the program with every port answering. */
  function Recovery(s: State, w: nat, t: nat): seq<Action>
    requires t in s.tasks && s.tasks[t].payload.Some?
  {
    Entering(w, t) + Confirming(w, Holds(s.store, s.tasks[t].payload.value)) + [Complete(w, Applied)]
  }

  lemma {:induction false} RunsConcat(s: State, xs: seq<Action>, ys: seq<Action>)
    requires Runs(s, xs) && Runs(After(s, xs), ys)
    ensures Runs(s, xs + ys) && After(s, xs + ys) == After(After(s, xs), ys)
    decreases |xs|
  {
    if xs == [] {
      assert xs + ys == ys;
    } else {
      assert (xs + ys)[1..] == xs[1..] + ys;
      RunsConcat(Apply(s, xs[0]), xs[1..], ys);
    }
  }

  lemma RunsOne(s: State, a: Action)
    requires Enabled(s, a)
    ensures Runs(s, [a]) && After(s, [a]) == Apply(s, a)
  {
    assert [a][1..] == [];
  }

  lemma RunsTwo(s: State, a: Action, b: Action)
    requires Enabled(s, a) && Enabled(Apply(s, a), b)
    ensures Runs(s, [a, b]) && After(s, [a, b]) == Apply(Apply(s, a), b)
  {
    RunsOne(s, a);
    RunsOne(Apply(s, a), b);
    RunsConcat(s, [a], [b]);
  }

  /** Any worker, wherever it was, can take the lease over. */
  lemma Reclaims(s: State, w: nat, t: nat)
    requires Inv(s) && !s.shutdown && w in s.workers && t in s.tasks && s.tasks[t].status == Publishing
    ensures var actions := Taking(w, t) + [LookAfterClaim(w)];
      && Runs(s, actions)
      && var s' := After(s, actions);
         && w in s'.workers && s'.workers[w].pc.Acquiring? && LiveFenced(s', s'.workers[w].pc.pub)
         && s'.workers[w].pc.pub.task == t && s.tasks[t].payload == Some(s'.workers[w].pc.pub.payload)
         && s'.store == s.store && !s'.shutdown
  {
    assert TaskOk(s, s.tasks[t]);
    TakesOver(s, w, t);
    RunsOne(After(s, Taking(w, t)), LookAfterClaim(w));
    RunsConcat(s, Taking(w, t), [LookAfterClaim(w)]);
  }

  lemma TakesOver(s: State, w: nat, t: nat)
    requires !s.shutdown && w in s.workers && t in s.tasks && Claimable(s.tasks[t])
    ensures Runs(s, Taking(w, t))
    ensures var s' := After(s, Taking(w, t));
      var task := Granted(s.tasks[t], s.nextToken);
      && s'.tasks == s.tasks[t := task] && s'.store == s.store && !s'.shutdown
      && w in s'.workers && s'.workers[w].pc == Claimed(Held(t, s.nextToken, task))
  {
    StartsOver(s, w);
    RunsOne(After(s, [Crash(w), Ask(w)]), Claim(w, t, Applied));
    RunsConcat(s, [Crash(w), Ask(w)], [Claim(w, t, Applied)]);
  }

  lemma StartsOver(s: State, w: nat)
    requires !s.shutdown && w in s.workers
    ensures Runs(s, [Crash(w), Ask(w)])
    ensures var s' := After(s, [Crash(w), Ask(w)]);
      && s'.tasks == s.tasks && s'.store == s.store && s'.nextToken == s.nextToken && !s'.shutdown
      && w in s'.workers && s'.workers[w].pc == Asking
  {
    RunsTwo(s, Crash(w), Ask(w));
  }

  lemma Enters(s: State, w: nat)
    requires w in s.workers && s.workers[w].pc.Acquiring? && LiveFenced(s, s.workers[w].pc.pub) && !s.shutdown
    ensures var actions := [Acquire(w, Applied), LookAfterAcquire(w)];
      && Runs(s, actions)
      && var s' := After(s, actions);
         && s'.tasks == s.tasks && s'.store == s.store && !s'.shutdown
         && w in s'.workers && s'.workers[w].pc == Reading(s.workers[w].pc.pub)
  {
    RunsTwo(s, Acquire(w, Applied), LookAfterAcquire(w));
  }

  /** `Get`, and when the path is still free the insert and its read-back. */
  lemma Confirms(s: State, w: nat)
    requires w in s.workers && s.workers[w].pc.Reading? && Insertable(s.store, s.workers[w].pc.pub.payload)
    ensures var p := s.workers[w].pc.pub;
      var actions := Confirming(w, Holds(s.store, p.payload));
      && Runs(s, actions)
      && var s' := After(s, actions);
         s'.tasks == s.tasks && w in s'.workers && s'.workers[w].pc == Completing(p)
  {
    if Holds(s.store, s.workers[w].pc.pub.payload) { ConfirmsPresent(s, w); } else { ConfirmsAbsent(s, w); }
  }

  lemma ConfirmsPresent(s: State, w: nat)
    requires w in s.workers && s.workers[w].pc.Reading? && Holds(s.store, s.workers[w].pc.pub.payload)
    ensures Runs(s, Confirming(w, true))
    ensures var s' := After(s, Confirming(w, true));
      s'.tasks == s.tasks && w in s'.workers && s'.workers[w].pc == Completing(s.workers[w].pc.pub)
  {
    RunsOne(s, Get(w, true));
    assert Confirming(w, true) == [Get(w, true)];
  }

  lemma ConfirmsAbsent(s: State, w: nat)
    requires w in s.workers && s.workers[w].pc.Reading? && HandleOf(s.workers[w].pc.pub.payload) !in s.store
    ensures Runs(s, Confirming(w, false))
    ensures var s' := After(s, Confirming(w, false));
      s'.tasks == s.tasks && w in s'.workers && s'.workers[w].pc == Completing(s.workers[w].pc.pub)
  {
    FindsFree(s, w);
    Writes(After(s, [Get(w, true), InsertLook(w, true)]), w);
    RunsConcat(s, [Get(w, true), InsertLook(w, true)], [Put(w, Applied), ReadBack(w, true)]);
    assert Confirming(w, false) == [Get(w, true), InsertLook(w, true)] + [Put(w, Applied), ReadBack(w, true)];
  }

  lemma FindsFree(s: State, w: nat)
    requires w in s.workers && s.workers[w].pc.Reading? && HandleOf(s.workers[w].pc.pub.payload) !in s.store
    ensures var actions := [Get(w, true), InsertLook(w, true)];
      && Runs(s, actions)
      && var s' := After(s, actions);
         && s'.tasks == s.tasks && s'.store == s.store
         && w in s'.workers && s'.workers[w].pc == Putting(s.workers[w].pc.pub)
  {
    RunsTwo(s, Get(w, true), InsertLook(w, true));
  }

  lemma Writes(s: State, w: nat)
    requires w in s.workers && s.workers[w].pc.Putting?
    ensures var actions := [Put(w, Applied), ReadBack(w, true)];
      && Runs(s, actions)
      && var s' := After(s, actions);
         s'.tasks == s.tasks && w in s'.workers && s'.workers[w].pc == Completing(s.workers[w].pc.pub)
  {
    RunsTwo(s, Put(w, Applied), ReadBack(w, true));
  }

  /** From the crash to the read: the worker holds the guard of the task's own payload. */
  lemma ReachesRead(s: State, w: nat, t: nat)
    requires Inv(s) && !s.shutdown && w in s.workers && t in s.tasks && s.tasks[t].status == Publishing
    ensures var actions := Entering(w, t);
      && Runs(s, actions)
      && var s' := After(s, actions);
         && w in s'.workers && s'.workers[w].pc.Reading? && LiveFenced(s', s'.workers[w].pc.pub)
         && s'.workers[w].pc.pub.task == t && s.tasks[t].payload == Some(s'.workers[w].pc.pub.payload)
         && s'.store == s.store
  {
    var claim := Taking(w, t) + [LookAfterClaim(w)];
    Reclaims(s, w, t);
    Enters(After(s, claim), w);
    RunsConcat(s, claim, [Acquire(w, Applied), LookAfterAcquire(w)]);
  }

  lemma Finishes(s: State, w: nat)
    requires w in s.workers && s.workers[w].pc.Reading? && LiveFenced(s, s.workers[w].pc.pub)
    requires Insertable(s.store, s.workers[w].pc.pub.payload)
    ensures var p := s.workers[w].pc.pub;
      var confirm := Confirming(w, Holds(s.store, p.payload));
      var actions := confirm + [Complete(w, Applied)];
      && Runs(s, actions) && p.task in After(s, actions).tasks && After(s, actions).tasks[p.task].status == Completed
  {
    var p := s.workers[w].pc.pub;
    var confirm := Confirming(w, Holds(s.store, p.payload));
    Confirms(s, w);
    RunsOne(After(s, confirm), Complete(w, Applied));
    RunsConcat(s, confirm, [Complete(w, Applied)]);
  }

  lemma RecoveryCompletes(s: State, w: nat, t: nat)
    requires Inv(s) && !s.shutdown && w in s.workers
    requires t in s.tasks && s.tasks[t].status == Publishing && !Blocked(s, t)
    ensures s.tasks[t].payload.Some? && Runs(s, Recovery(s, w, t))
    ensures var s' := After(s, Recovery(s, w, t)); t in s'.tasks && s'.tasks[t].status == Completed
  {
    var read := Entering(w, t);
    ReachesRead(s, w, t);
    var finish := Confirming(w, Holds(s.store, s.tasks[t].payload.value))
      + [Complete(w, Applied)];
    Finishes(After(s, read), w);
    RunsConcat(s, read, finish);
    assert Recovery(s, w, t) == read + finish;
  }

  lemma {:induction false} NobodyElseWrites(s: State, actions: seq<Action>)
    requires Runs(s, actions) && forall a :: a in actions ==> !a.OtherWrite?
    ensures Undisturbed(s, actions)
    decreases |actions|
  {
    if actions != [] {
      assert actions[0] in actions;
      NobodyElseWrites(Apply(s, actions[0]), actions[1..]);
    }
  }

  /** Nothing but a conflict can strand a publication: from every reachable state in which a task
      is publishing, after any crashes and any ambiguous writes, it can still be completed if and
      only if no other entry sits at its path. */
  lemma PublicationRecoverableIff(s: State, w: nat, t: nat)
    requires Inv(s) && !s.shutdown && w in s.workers
    requires t in s.tasks && s.tasks[t].status == Publishing
    ensures CanComplete(s, t) <==> !Blocked(s, t)
  {
    if Blocked(s, t) {
      forall actions | Runs(s, actions) && Undisturbed(s, actions)
        ensures t in After(s, actions).tasks && After(s, actions).tasks[t].status != Completed {
        ConflictNeverCompletes(s, t, actions);
      }
    } else {
      RecoveryCompletes(s, w, t);
      NobodyElseWrites(s, Recovery(s, w, t));
    }
  }

  // ---------------------------------------------------------------- shutdown

  /** Past the last look at the shutdown flag. */
  predicate Committed(pc: Pc) {
    pc.Reading? || pc.Inserting? || pc.Putting? || pc.ReadingBack? || pc.Completing?
  }

  ghost predicate Quiet(s: State) {
    s.shutdown && s.late == map[] && forall w :: w in s.workers ==> !Committed(s.workers[w].pc)
  }

  predicate Publishes(a: Action) {
    a.InsertLook? || a.Put? || a.PutLate? || a.Land? || a.Complete?
  }

  /** After shutdown nobody passes the last look: a pc that was not committed stays so. */
  lemma UncommittedStays(s: State, a: Action)
    requires s.shutdown && Enabled(s, a) && Actor(a).Some? && !Committed(s.workers[a.w].pc)
    ensures !Committed(PcAfter(s, a)) && !Publishes(a)
  {}

  lemma QuietStep(s: State, a: Action)
    requires Quiet(s) && Enabled(s, a)
    ensures Quiet(Apply(s, a)) && !Publishes(a)
  {
    if Actor(a).Some? { UncommittedStays(s, a); }
  }

  /** Shutdown is sticky: once it is requested and the publications already under way are over,
      no continuation inserts, writes or completes anything. */
  lemma {:induction false} ShutdownStopsPublication(s: State, actions: seq<Action>)
    requires Quiet(s) && Runs(s, actions)
    ensures forall i :: 0 <= i < |actions| ==> !Publishes(actions[i])
    decreases |actions|
  {
    if actions != [] {
      QuietStep(s, actions[0]);
      ShutdownStopsPublication(Apply(s, actions[0]), actions[1..]);
      forall i | 0 <= i < |actions| ensures !Publishes(actions[i]) {
        if i > 0 { assert actions[i] == actions[1..][i - 1]; }
      }
    }
  }

  /** How often `w` calls for a claim. */
  function ClaimCalls(actions: seq<Action>, w: nat): nat {
    if actions == [] then 0
    else (if actions[0].Claim? && actions[0].w == w then 1 else 0) + ClaimCalls(actions[1..], w)
  }

  predicate MayAsk(s: State, w: nat) { w in s.workers && s.workers[w].pc.Asking? }

  lemma AskingOnce(s: State, a: Action, w: nat)
    requires s.shutdown && Enabled(s, a)
    ensures MayAsk(Apply(s, a), w) ==> MayAsk(s, w) && !(a.Claim? && a.w == w)
    ensures a.Claim? && a.w == w ==> MayAsk(s, w)
  {}

  /** After shutdown a worker makes at most the one claim call it was already about to make. */
  lemma {:induction false} ShutdownStopsClaiming(s: State, actions: seq<Action>, w: nat)
    requires s.shutdown && Runs(s, actions)
    ensures ClaimCalls(actions, w) <= if MayAsk(s, w) then 1 else 0
    decreases |actions|
  {
    if actions != [] {
      AskingOnce(s, actions[0], w);
      ShutdownStopsClaiming(Apply(s, actions[0]), actions[1..], w);
    }
  }

  /** Between a claim granted after shutdown and the end of its tick. */
  predicate Handing(pc: Pc, t: nat, k: nat) {
    (pc.Claimed? && pc.held.task == t && pc.held.token == k) || pc == ReleasingClaim(t, k)
  }

  /** Claim `k` on `t` is being handed back by `w` or is no longer held. */
  predicate HandedBack(s: State, w: nat, t: nat, k: nat) {
    && k < s.nextToken && t in s.tasks && w in s.workers
    && (Handing(s.workers[w].pc, t, k) || s.tasks[t].claim != Some(k))
  }

  /** The claim still stands and its holder dies, or makes a release call that has no effect. */
  predicate Forgets(s: State, a: Action, w: nat, t: nat, k: nat) {
    && t in s.tasks && s.tasks[t].claim == Some(k)
    && (a == Crash(w) || (a.ReleaseClaim? && a.w == w && !Effective(a.reply)))
  }

  ghost predicate NeverForgets(s: State, actions: seq<Action>, w: nat, t: nat, k: nat)
    requires Runs(s, actions)
    decreases |actions|
  {
    actions == [] ||
    (!Forgets(s, actions[0], w, t, k) && NeverForgets(Apply(s, actions[0]), actions[1..], w, t, k))
  }

  /** A claim that is gone does not come back: tokens are new. */
  lemma GoneStaysGone(s: State, a: Action, t: nat, k: nat)
    requires Enabled(s, a) && k < s.nextToken && t in s.tasks && s.tasks[t].claim != Some(k)
    ensures k < TokenAfter(s, a) && t in TasksAfter(s, a) && TasksAfter(s, a)[t].claim != Some(k)
  {}

  lemma HandingStep(s: State, a: Action, w: nat, t: nat, k: nat)
    requires s.shutdown && Enabled(s, a) && !Forgets(s, a, w, t, k) && HandedBack(s, w, t, k)
    requires Handing(s.workers[w].pc, t, k) && Actor(a) == Some(w) && s.tasks[t].claim == Some(k)
    ensures Handing(PcAfter(s, a), t, k) || TasksAfter(s, a)[t].claim != Some(k)
    ensures t in TasksAfter(s, a)
  {}

  lemma HandedBackStep(s: State, a: Action, w: nat, t: nat, k: nat)
    requires s.shutdown && Enabled(s, a) && !Forgets(s, a, w, t, k) && HandedBack(s, w, t, k)
    ensures HandedBack(Apply(s, a), w, t, k)
  {
    if s.tasks[t].claim != Some(k) {
      GoneStaysGone(s, a, t, k);
    } else if Actor(a) == Some(w) {
      HandingStep(s, a, w, t, k);
    } else {
      TasksRemain(s, a);
    }
  }

  lemma TasksRemain(s: State, a: Action)
    requires Enabled(s, a)
    ensures forall t :: t in s.tasks ==> t in TasksAfter(s, a)
  {}

  /** What a worker that was granted a claim can still be doing after shutdown. */
  predicate Winding(pc: Pc) { pc.Idle? || pc.Claimed? || pc.ReleasingClaim? || pc.Done? }

  lemma WindingStep(s: State, a: Action, w: nat)
    requires s.shutdown && Enabled(s, a) && w in s.workers && Winding(s.workers[w].pc)
    ensures w in Apply(s, a).workers && Winding(Apply(s, a).workers[w].pc)
  {}

  /** A claim granted although shutdown has been requested leads nowhere: its holder never evaluates
      or publishes, and hands the claim back unless it crashes or the release call has no effect. */
  lemma {:induction false} LateClaimIsHandedBack(s: State, actions: seq<Action>, w: nat)
    requires s.shutdown && Runs(s, actions) && w in s.workers && s.workers[w].pc.Claimed?
    requires s.workers[w].pc.held.task in s.tasks && s.workers[w].pc.held.token < s.nextToken
    ensures var (h, s') := (s.workers[w].pc.held, After(s, actions));
      && w in s'.workers && Winding(s'.workers[w].pc)
      && (NeverForgets(s, actions, w, h.task, h.token) ==> HandedBack(s', w, h.task, h.token))
  {
    RunWinds(s, actions, w);
    var h := s.workers[w].pc.held;
    if NeverForgets(s, actions, w, h.task, h.token) { RunHandsBack(s, actions, w, h.task, h.token); }
  }

  lemma {:induction false} RunWinds(s: State, actions: seq<Action>, w: nat)
    requires s.shutdown && Runs(s, actions) && w in s.workers && Winding(s.workers[w].pc)
    ensures w in After(s, actions).workers && Winding(After(s, actions).workers[w].pc)
    decreases |actions|
  {
    if actions != [] {
      WindingStep(s, actions[0], w);
      RunWinds(Apply(s, actions[0]), actions[1..], w);
    }
  }

  lemma {:induction false} RunHandsBack(s: State, actions: seq<Action>, w: nat, t: nat, k: nat)
    requires s.shutdown && Runs(s, actions) && HandedBack(s, w, t, k) && NeverForgets(s, actions, w, t, k)
    ensures HandedBack(After(s, actions), w, t, k)
    decreases |actions|
  {
    if actions != [] {
      HandedBackStep(s, actions[0], w, t, k);
      RunHandsBack(Apply(s, actions[0]), actions[1..], w, t, k);
    }
  }
}
