/** Safety of fenced publication over every run of `Publication`. */
module PublicationSafety {
  import opened Common
  import opened Publication

  // ---------------------------------------------------------------- runs

  ghost predicate Runs(s: State, actions: seq<Action>)
    decreases |actions|
  {
    actions == [] || (Enabled(s, actions[0]) && Runs(Apply(s, actions[0]), actions[1..]))
  }

  ghost function After(s: State, actions: seq<Action>): State
    requires Runs(s, actions)
    decreases |actions|
  {
    if actions == [] then s else After(Apply(s, actions[0]), actions[1..])
  }

  /** No tasks, any store, any number of idle workers. */
  ghost predicate Initial(s: State) {
    s.tasks == map[] && s.late == map[] && forall w :: w in s.workers ==> s.workers[w] == Worker(Idle, 0, 0, 0)
  }

  // ---------------------------------------------------------------- the invariant

  predicate Matches(p: Payload, id: Identity) { p == PayloadFor(id, p.verifiedAt) }

  predicate TaskOk(s: State, t: Task) {
    && (t.claim.Some? ==> t.claim.value < s.nextToken)
    && (t.payload.Some? ==> Matches(t.payload.value, t.identity))
    && match t.status
       case Publishing => t.payload.Some? && t.fence.Some?
       case Completed => t.payload.Some? && Holds(s.store, t.payload.value)
       case _ => t.payload.None?
  }

  predicate HeldOk(s: State, h: Held) {
    && h.task in s.tasks && h.token < s.nextToken && h.record.revision <= s.tasks[h.task].revision
    && (Live(s, h.task, h.token, h.record.revision) ==> s.tasks[h.task].status == h.record.status)
    && (h.record.status == Publishing ==>
          h.record.payload.Some? && h.record.fence.Some? && s.tasks[h.task].payload == h.record.payload)
    && (h.record.status == Publishing || h.record.status == InProgress)
  }

  predicate PubOk(s: State, p: Pub) { p.task in s.tasks && s.tasks[p.task].payload == Some(p.payload) }

  predicate TickOk(s: State, task: nat, tick: Tick) {
    match tick
    case Published => task in s.tasks && s.tasks[task].status == Completed
    case Failed(why) => !why.MissingPayload? && (why.Conflict? ==> Blocked(s, task))
    case _ => true
  }

  /** Some other entry occupies the path the task must publish to. */
  predicate Blocked(s: State, task: nat) {
    && task in s.tasks && s.tasks[task].payload.Some?
    && HandleOf(s.tasks[task].payload.value) in s.store && !Holds(s.store, s.tasks[task].payload.value)
  }

  predicate PcOk(s: State, pc: Pc) {
    match pc
    case Claimed(h) => HeldOk(s, h)
    case Evaluating(h) => HeldOk(s, h) && h.record.status == InProgress
    case Acquiring(p) => PubOk(s, p)
    case Guarded(p) => PubOk(s, p)
    case BackingOut(p) => PubOk(s, p)
    case Reading(p) => PubOk(s, p)
    case Inserting(p) => PubOk(s, p)
    case Putting(p) => PubOk(s, p)
    case ReadingBack(p) => PubOk(s, p)
    case Completing(p) => PubOk(s, p) && Holds(s.store, p.payload)
    case Releasing(p, tick) => PubOk(s, p) && TickOk(s, p.task, tick)
    case Done(t, tick) => TickOk(s, t, tick)
    case _ => true
  }

  /** Every acquired guard has been released once, dropped by a crash, or is still held. */
  predicate GuardsBalance(k: Worker) {
    k.acquired == k.released + k.dropped + if Holding(k.pc) then 1 else 0
  }

  /** No two tasks publish to the same path. */
  ghost predicate HandlesDistinct(s: State) {
    forall t, u :: t in s.tasks && u in s.tasks && t != u ==>
      TaskHandle(s.tasks[t].identity) != TaskHandle(s.tasks[u].identity)
  }

  /** Every write under way, awaited or not, is to a path that is free or already right. */
  ghost predicate WritesHarmless(s: State) {
    && (forall w :: w in s.workers && s.workers[w].pc.Putting? ==> Insertable(s.store, s.workers[w].pc.pub.payload))
    && (forall i :: i in s.late ==> i < s.nextToken && PubOk(s, s.late[i]) && Insertable(s.store, s.late[i].payload))
  }

  /** What the tasks and the workers' own knowledge satisfy. */
  ghost predicate Core(s: State) {
    && (forall t :: t in s.tasks ==> TaskOk(s, s.tasks[t]))
    && (forall w :: w in s.workers ==> PcOk(s, s.workers[w].pc) && GuardsBalance(s.workers[w]))
  }

  ghost predicate Inv(s: State) { Core(s) && HandlesDistinct(s) && WritesHarmless(s) }

  // ---------------------------------------------------------------- writers outside the protocol

  /** A write of `e` to `h` changes an entry, or is about to be written over by a worker that has
      already found the path free. */
  ghost predicate Contended(s: State, h: Handle, e: Entry) {
    || (h in s.store && s.store[h] != e)
    || (exists w :: w in s.workers && s.workers[w].pc.Putting?
                    && HandleOf(s.workers[w].pc.pub.payload) == h && V2(s.workers[w].pc.pub.payload) != e)
    || (exists i :: i in s.late && HandleOf(s.late[i].payload) == h && V2(s.late[i].payload) != e)
  }

  ghost predicate Disturbs(s: State, a: Action) { a.OtherWrite? && Contended(s, a.handle, a.entry) }

  /** Outside writers stay off contended paths for the whole run. */
  ghost predicate Undisturbed(s: State, actions: seq<Action>)
    requires Runs(s, actions)
    decreases |actions|
  {
    actions == [] || (!Disturbs(s, actions[0]) && Undisturbed(Apply(s, actions[0]), actions[1..]))
  }

  // ---------------------------------------------------------------- what one step may do to others

  /** How a task may change while somebody else is not looking. */
  predicate TaskEvolves(t: Task, u: Task, nextToken: nat) {
    && u.identity == t.identity && t.revision <= u.revision
    && (t.payload.Some? ==> u.payload == t.payload)
    && (t.status == Completed ==> u.status == Completed)
    && (u.claim == t.claim || u.claim.None? || u.claim.value >= nextToken)
    && (u.revision == t.revision && u.claim == t.claim && u.claim.Some? ==> u.status == t.status)
  }

  ghost predicate Evolves(s: State, s': State) {
    && s.nextToken <= s'.nextToken
    && (forall h :: h in s.store ==> h in s'.store && s'.store[h] == s.store[h])
    && (forall t :: t in s.tasks ==> t in s'.tasks && TaskEvolves(s.tasks[t], s'.tasks[t], s.nextToken))
  }

  /** A worker's knowledge survives whatever the others do. */
  lemma PcOkIsStable(s: State, s': State, pc: Pc)
    requires Evolves(s, s') && PcOk(s, pc)
    ensures PcOk(s', pc)
  {}

  lemma TaskOkIsStable(s: State, s': State, t: Task)
    requires Evolves(s, s') && TaskOk(s, t)
    ensures TaskOk(s', t)
  {}

  lemma StepEvolvesTask(s: State, a: Action, t: nat)
    requires Core(s) && Enabled(s, a) && t in s.tasks
    ensures t in TasksAfter(s, a) && TaskEvolves(s.tasks[t], TasksAfter(s, a)[t], s.nextToken)
  {
    assert TaskOk(s, s.tasks[t]);
    if a.Persist? || a.Schedule? { EvaluatedEvolves(s, a, t); }
  }

  /** Only a task still under evaluation, and so without payload, is persisted or rescheduled. */
  lemma EvaluatedEvolves(s: State, a: Action, t: nat)
    requires Core(s) && Enabled(s, a) && (a.Persist? || a.Schedule?) && t in s.tasks
    ensures t in TasksAfter(s, a) && TaskEvolves(s.tasks[t], TasksAfter(s, a)[t], s.nextToken)
  {
    assert PcOk(s, s.workers[a.w].pc) && TaskOk(s, s.tasks[t]);
  }

  lemma LandedIsHarmless(s: State, a: Action)
    requires Inv(s) && Enabled(s, a) && Landed(s, a).Some?
    ensures PubOk(s, Landed(s, a).value) && Insertable(s.store, Landed(s, a).value.payload)
  {
    if a.Put? { assert PcOk(s, s.workers[a.w].pc); }
  }

  lemma StepKeepsEntries(s: State, a: Action)
    requires Inv(s) && Enabled(s, a) && !Disturbs(s, a)
    ensures s.nextToken <= TokenAfter(s, a)
    ensures forall h :: h in s.store ==> h in StoreAfter(s, a) && StoreAfter(s, a)[h] == s.store[h]
  {
    if Landed(s, a).Some? { LandedIsHarmless(s, a); }
  }

  /** Every step lets tasks and store only evolve: this is what each worker may rely on. */
  lemma StepEvolves(s: State, a: Action)
    requires Inv(s) && Enabled(s, a) && !Disturbs(s, a)
    ensures Evolves(s, Apply(s, a))
  {
    StepKeepsEntries(s, a);
    forall t | t in s.tasks
      ensures t in Apply(s, a).tasks && TaskEvolves(s.tasks[t], Apply(s, a).tasks[t], s.nextToken)
    {
      StepEvolvesTask(s, a, t);
    }
  }

  lemma StepMovesOnlyActor(s: State, a: Action)
    requires Enabled(s, a)
    ensures Apply(s, a).workers.Keys == s.workers.Keys
    ensures forall w :: w in s.workers && Actor(a) != Some(w) ==> Apply(s, a).workers[w] == s.workers[w]
  {}

  /** What an action's own worker and the touched task leave behind. The six actions that write
      to a task or to the store are proved one at a time. */
  ghost predicate Kept(s: State, a: Action)
    requires Enabled(s, a) && Actor(a).Some?
  {
    var s' := Apply(s, a);
    var k := s'.workers[Actor(a).value];
    && PcOk(s', k.pc) && GuardsBalance(k)
    && (forall t :: t in s'.tasks && (t in s.tasks ==> s'.tasks[t] != s.tasks[t]) ==> TaskOk(s', s'.tasks[t]))
  }

  /** An action that changes task `t` at most keeps what must be kept if it keeps its worker and `t`. */
  lemma KeptIf(s: State, a: Action, t: nat)
    requires Core(s) && Enabled(s, a) && Actor(a).Some?
    requires PcOk(Apply(s, a), PcAfter(s, a)) && GuardsBalance(Moved(s, a))
    requires t in TasksAfter(s, a) && TasksAfter(s, a) == s.tasks[t := TasksAfter(s, a)[t]]
    requires TasksAfter(s, a)[t] != s.tasks[t] ==> TaskOk(Apply(s, a), TasksAfter(s, a)[t])
    requires t in s.tasks
    ensures Kept(s, a)
  {}

  lemma ClaimKeepsWorker(s: State, a: Action)
    requires Core(s) && Enabled(s, a) && a.Claim?
    ensures PcOk(Apply(s, a), PcAfter(s, a)) && GuardsBalance(Moved(s, a))
  {
    assert GuardsBalance(s.workers[a.w]);
    if Effective(a.reply) { assert TaskOk(s, s.tasks[a.task]); }
  }

  lemma ClaimKept(s: State, a: Action)
    requires Core(s) && Enabled(s, a) && a.Claim?
    ensures Kept(s, a)
  {
    ClaimKeepsWorker(s, a);
    if Effective(a.reply) {
      assert TaskOk(s, s.tasks[a.task]);
      KeptIf(s, a, a.task);
    }
  }

  lemma ReleaseClaimKept(s: State, a: Action)
    requires Core(s) && Enabled(s, a) && a.ReleaseClaim?
    ensures Kept(s, a)
  {
    assert GuardsBalance(s.workers[a.w]);
    if Effective(a.reply) { assert TaskOk(s, s.tasks[s.workers[a.w].pc.task]); }
  }

  lemma PersistKeepsWorker(s: State, a: Action)
    requires Core(s) && Enabled(s, a) && a.Persist?
    ensures PcOk(Apply(s, a), PcAfter(s, a)) && GuardsBalance(Moved(s, a))
  {
    assert PcOk(s, s.workers[a.w].pc) && GuardsBalance(s.workers[a.w]);
  }

  lemma PersistKeepsTask(s: State, a: Action)
    requires Core(s) && Enabled(s, a) && a.Persist? && Effective(a.reply)
    ensures TaskOk(Apply(s, a), TasksAfter(s, a)[s.workers[a.w].pc.held.task])
  {
    assert PcOk(s, s.workers[a.w].pc);
    assert TaskOk(s, s.tasks[s.workers[a.w].pc.held.task]);
  }

  lemma PersistKept(s: State, a: Action)
    requires Core(s) && Enabled(s, a) && a.Persist?
    ensures Kept(s, a)
  {
    PersistKeepsWorker(s, a);
    if Effective(a.reply) {
      PersistKeepsTask(s, a);
      KeptIf(s, a, s.workers[a.w].pc.held.task);
    }
  }

  lemma ScheduleKept(s: State, a: Action)
    requires Core(s) && Enabled(s, a) && a.Schedule?
    ensures Kept(s, a)
  {
    assert PcOk(s, s.workers[a.w].pc) && GuardsBalance(s.workers[a.w]);
    assert TaskOk(s, s.tasks[s.workers[a.w].pc.held.task]);
  }

  lemma PutKept(s: State, a: Action)
    requires Core(s) && Enabled(s, a) && (a.Put? || a.PutLate?)
    ensures Kept(s, a)
  {
    assert PcOk(s, s.workers[a.w].pc) && GuardsBalance(s.workers[a.w]);
    assert Apply(s, a).tasks == s.tasks;
  }

  /** Only a worker that has seen its payload in the store completes the task. */
  lemma CompleteKept(s: State, a: Action)
    requires Core(s) && Enabled(s, a) && a.Complete?
    ensures Kept(s, a)
  {
    CompleteKeepsWorker(s, a);
    if Effective(a.reply) {
      CompleteKeepsTask(s, a);
      KeptIf(s, a, s.workers[a.w].pc.pub.task);
    }
  }

  lemma CompleteKeepsWorker(s: State, a: Action)
    requires Core(s) && Enabled(s, a) && a.Complete?
    ensures PcOk(Apply(s, a), PcAfter(s, a)) && GuardsBalance(Moved(s, a))
  {
    assert PcOk(s, s.workers[a.w].pc) && GuardsBalance(s.workers[a.w]);
  }

  lemma CompleteKeepsTask(s: State, a: Action)
    requires Core(s) && Enabled(s, a) && a.Complete? && Effective(a.reply)
    ensures TaskOk(Apply(s, a), TasksAfter(s, a)[s.workers[a.w].pc.pub.task])
  {
    assert PcOk(s, s.workers[a.w].pc);
    assert TaskOk(s, s.tasks[s.workers[a.w].pc.pub.task]);
  }

  predicate Writes(a: Action) {
    a.Claim? || a.ReleaseClaim? || a.Persist? || a.Schedule? || a.Put? || a.PutLate? || a.Complete?
  }

  lemma LooksKept(s: State, a: Action)
    requires Enabled(s, a) && (a.Ask? || a.LookAfterClaim? || a.LookAfterAcquire? || a.Acquire?)
    requires PcOk(s, s.workers[a.w].pc) && GuardsBalance(s.workers[a.w])
    ensures PcOk(s, PcAfter(s, a)) && GuardsBalance(Moved(s, a))
  {}

  lemma ReadsKept(s: State, a: Action)
    requires Enabled(s, a) && (a.Get? || a.InsertLook? || a.ReadBack?)
    requires PcOk(s, s.workers[a.w].pc) && GuardsBalance(s.workers[a.w])
    ensures PcOk(s, PcAfter(s, a)) && GuardsBalance(Moved(s, a))
  {}

  lemma EndingsKept(s: State, a: Action)
    requires Enabled(s, a) && (a.BackOut? || a.Release? || a.Again? || a.Crash?)
    requires PcOk(s, s.workers[a.w].pc) && GuardsBalance(s.workers[a.w])
    ensures PcOk(s, PcAfter(s, a)) && GuardsBalance(Moved(s, a))
  {}

  lemma PcOkReads(s: State, s': State, pc: Pc)
    requires s'.tasks == s.tasks && s'.store == s.store && s'.nextToken == s.nextToken && PcOk(s, pc)
    ensures PcOk(s', pc)
  {}

  lemma LocalKept(s: State, a: Action)
    requires Core(s) && Enabled(s, a) && Actor(a).Some? && !Writes(a)
    ensures Kept(s, a)
  {
    var w := Actor(a).value;
    assert PcOk(s, s.workers[w].pc) && GuardsBalance(s.workers[w]);
    if a.BackOut? || a.Release? || a.Again? || a.Crash? { EndingsKept(s, a); }
    else if a.Get? || a.InsertLook? || a.ReadBack? { ReadsKept(s, a); }
    else { LooksKept(s, a); }
    PcOkReads(s, Apply(s, a), Apply(s, a).workers[w].pc);
  }

  lemma StepKept(s: State, a: Action)
    requires Core(s) && Enabled(s, a) && Actor(a).Some?
    ensures Kept(s, a)
  {
    if a.Claim? { ClaimKept(s, a); }
    else if a.ReleaseClaim? { ReleaseClaimKept(s, a); }
    else if a.Persist? { PersistKept(s, a); }
    else if a.Schedule? { ScheduleKept(s, a); }
    else if a.Put? || a.PutLate? { PutKept(s, a); }
    else if a.Complete? { CompleteKept(s, a); }
    else { LocalKept(s, a); }
  }

  lemma OnlyAdmissionAddsTasks(s: State, a: Action)
    requires Enabled(s, a) && !a.Admit?
    ensures forall t :: t in Apply(s, a).tasks ==> t in s.tasks
  {}

  lemma StepKeepsHandles(s: State, a: Action)
    requires Inv(s) && Enabled(s, a) && !Disturbs(s, a)
    ensures HandlesDistinct(Apply(s, a))
  {
    if a.Admit? {
      AdmissionKeepsHandles(s, a);
    } else {
      StepEvolves(s, a);
      OnlyAdmissionAddsTasks(s, a);
      SameIdentitiesDistinct(s, Apply(s, a));
    }
  }

  lemma AdmissionKeepsHandles(s: State, a: Action)
    requires HandlesDistinct(s) && Enabled(s, a) && a.Admit?
    ensures HandlesDistinct(Apply(s, a))
  {}

  lemma SameIdentitiesDistinct(s: State, s': State)
    requires HandlesDistinct(s) && Evolves(s, s') && forall t :: t in s'.tasks ==> t in s.tasks
    ensures HandlesDistinct(s')
  {
    forall t, u | t in s'.tasks && u in s'.tasks && t != u
      ensures TaskHandle(s'.tasks[t].identity) != TaskHandle(s'.tasks[u].identity)
    {
      assert TaskEvolves(s.tasks[t], s'.tasks[t], s.nextToken) && TaskEvolves(s.tasks[u], s'.tasks[u], s.nextToken);
    }
  }

  /** Two publications to one path are of one task, and so of one payload. */
  lemma SamePathSamePayload(s: State, p: Pub, q: Pub)
    requires Inv(s) && PubOk(s, p) && PubOk(s, q) && HandleOf(p.payload) == HandleOf(q.payload)
    ensures p.payload == q.payload
  {
    assert TaskOk(s, s.tasks[p.task]) && TaskOk(s, s.tasks[q.task]);
  }

  /** A write under way in `s` stays harmless when another one is performed. */
  lemma StepKeepsHarmless(s: State, a: Action, p: Pub)
    requires Inv(s) && Enabled(s, a) && !Disturbs(s, a) && PubOk(s, p) && Insertable(s.store, p.payload)
    requires || (exists w :: w in s.workers && s.workers[w].pc == Putting(p))
             || (exists i :: i in s.late && s.late[i] == p)
    ensures Insertable(StoreAfter(s, a), p.payload)
  {
    if Landed(s, a).Some? {
      LandedIsHarmless(s, a);
      LandingKeepsHarmless(s, Landed(s, a).value, p);
    }
  }

  lemma LandingKeepsHarmless(s: State, q: Pub, p: Pub)
    requires Inv(s) && PubOk(s, q) && PubOk(s, p) && Insertable(s.store, p.payload)
    ensures Insertable(s.store[HandleOf(q.payload) := V2(q.payload)], p.payload)
  {
    if HandleOf(p.payload) == HandleOf(q.payload) { SamePathSamePayload(s, p, q); }
  }

  lemma StepKeepsWritesHarmless(s: State, a: Action)
    requires Inv(s) && Enabled(s, a) && !Disturbs(s, a)
    ensures WritesHarmless(Apply(s, a))
  {
    var s' := Apply(s, a);
    StepMovesOnlyActor(s, a);
    forall w | w in s'.workers && s'.workers[w].pc.Putting? ensures Insertable(s'.store, s'.workers[w].pc.pub.payload) {
      PuttingStaysHarmless(s, a, w);
    }
    forall i | i in s'.late
      ensures i < s'.nextToken && PubOk(s', s'.late[i]) && Insertable(s'.store, s'.late[i].payload)
    {
      LateStaysHarmless(s, a, i);
    }
  }

  lemma PuttingStaysHarmless(s: State, a: Action, w: nat)
    requires Inv(s) && Enabled(s, a) && !Disturbs(s, a)
    requires w in s.workers && w in Apply(s, a).workers && Apply(s, a).workers[w].pc.Putting?
    ensures Insertable(StoreAfter(s, a), Apply(s, a).workers[w].pc.pub.payload)
  {
    if Actor(a) == Some(w) {
      EntersPutting(s, a);
    } else {
      assert PcOk(s, s.workers[w].pc);
      StepKeepsHarmless(s, a, s.workers[w].pc.pub);
    }
  }

  lemma LateStaysHarmless(s: State, a: Action, i: nat)
    requires Inv(s) && Enabled(s, a) && !Disturbs(s, a) && i in Apply(s, a).late
    ensures var s' := Apply(s, a); i < s'.nextToken && PubOk(s', s'.late[i]) && Insertable(s'.store, s'.late[i].payload)
  {
    LateIsKnown(s, a, i);
    StepKeepsHarmless(s, a, Apply(s, a).late[i]);
    StepEvolves(s, a);
    PubOkIsStable(s, Apply(s, a), Apply(s, a).late[i]);
  }

  lemma PubOkIsStable(s: State, s': State, p: Pub)
    requires Evolves(s, s') && PubOk(s, p)
    ensures PubOk(s', p)
  {}

  /** A worker starts a write only on finding the path free. */
  lemma EntersPutting(s: State, a: Action)
    requires Enabled(s, a) && Actor(a).Some? && PcAfter(s, a).Putting?
    ensures Insertable(StoreAfter(s, a), PcAfter(s, a).pub.payload)
  {}

  /** A late write was late before or has just been given up on by its sender. */
  lemma LateIsKnown(s: State, a: Action, i: nat)
    requires Inv(s) && Enabled(s, a) && i in Apply(s, a).late
    ensures var p := Apply(s, a).late[i];
      && i < Apply(s, a).nextToken && PubOk(s, p) && Insertable(s.store, p.payload)
      && ((exists w :: w in s.workers && s.workers[w].pc == Putting(p)) || (exists j :: j in s.late && s.late[j] == p))
  {
    LateSource(s, a, i);
    if i !in s.late || Apply(s, a).late[i] != s.late[i] { assert PcOk(s, s.workers[a.w].pc); }
  }

  lemma LateSource(s: State, a: Action, i: nat)
    requires Enabled(s, a) && i in Apply(s, a).late
    ensures s.nextToken <= Apply(s, a).nextToken
    ensures || (i in s.late && Apply(s, a).late[i] == s.late[i])
            || (a.PutLate? && i == s.nextToken < Apply(s, a).nextToken
                && s.workers[a.w].pc == Putting(Apply(s, a).late[i]))
  {}

  lemma StepKeepsInv(s: State, a: Action)
    requires Inv(s) && Enabled(s, a) && !Disturbs(s, a)
    ensures Inv(Apply(s, a)) && Evolves(s, Apply(s, a))
  {
    var s' := Apply(s, a);
    StepKeepsHandles(s, a);
    StepKeepsWritesHarmless(s, a);
    StepMovesOnlyActor(s, a);
    StepEvolves(s, a);
    if Actor(a).Some? { StepKept(s, a); }
    forall t | t in s'.tasks ensures TaskOk(s', s'.tasks[t]) {
      if t in s.tasks { TaskOkIsStable(s, s', s.tasks[t]); }
    }
    forall w | w in s'.workers ensures PcOk(s', s'.workers[w].pc) && GuardsBalance(s'.workers[w]) {
      if Actor(a) != Some(w) { PcOkIsStable(s, s', s.workers[w].pc); }
    }
  }
}
