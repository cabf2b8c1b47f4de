/** Leased verification workers and fenced entitlement publication (`graph_worker.rs`,
    `payment_worker.rs`) as a step system: any number of workers run the claim / evaluate /
    persist / publish program one port call at a time, in every interleaving.

    Time is left out on purpose. A lease may be reclaimed at any moment, even while its holder
    is still running; whatever is proved here holds for every clock and every lease length. A
    port write changes a task only for the current claim token and revision; a call that reports
    an error may or may not have taken effect. Tokens are new numbers, standing for random UUIDs.

    The entitlement store is a homeserver: an insert is a read followed by an unconditional
    write, anybody may write in between, and a write that was given up on may still land later.
    What keeps workers out of each other's way is that admitted tasks have distinct (creator,
    bundle) handles; the advisory lock behind the action guard is not needed for it. */
module Publication {
  import opened Common

  datatype Evaluator = Graph | Payment

  /** What a task was admitted for; it never changes. */
  datatype Identity = Identity(creator: string, reader: string, bundleId: string, resource: string,
                               evaluator: Evaluator)

  datatype Payload = Payload(creator: string, reader: string, bundleId: string, resource: string,
                             verifiedAt: int, satisfiedBy: Evaluator)

  datatype Handle = Handle(creator: string, bundleId: string)

  /** One canonical path per handle, shared by both entitlement versions. */
  datatype Entry = V1(bytes: string) | V2(payload: Payload)

  datatype Status = Pending | InProgress | Publishing | Completed | Ended

  datatype Task = Task(identity: Identity, status: Status, revision: nat, payload: Option<Payload>,
                       fence: Option<nat>, claim: Option<nat>)

  /** What a worker carries from a granted claim: its token and the record it was handed. */
  datatype Held = Held(task: nat, token: nat, record: Task)

  /** What a worker carries while publishing. */
  datatype Pub = Pub(task: nat, token: nat, revision: nat, payload: Payload, fence: nat)

  datatype Failure = MissingPayload | Conflict | Storage

  datatype Tick = RetryScheduled | Terminal | Published | Deferred | ClaimLost | Failed(why: Failure)

  /** Where a worker is: the next thing it will do. */
  datatype Pc =
    | Idle
    | Asking
    | Claimed(held: Held)
    | ReleasingClaim(task: nat, token: nat)
    | Evaluating(held: Held)
    | Acquiring(pub: Pub)
    | Guarded(pub: Pub)
    | BackingOut(pub: Pub)
    | Reading(pub: Pub)
    | Inserting(pub: Pub)
    | Putting(pub: Pub)
    | ReadingBack(pub: Pub)
    | Completing(pub: Pub)
    | Releasing(pub: Pub, tick: Tick)
    | Done(task: nat, tick: Tick)

  /** `acquired` and `released` count calls on action guards; `dropped` counts guards that died
      with a crashed worker. */
  datatype Worker = Worker(pc: Pc, acquired: nat, released: nat, dropped: nat)

  /** `late` holds the store writes whose sender has stopped waiting for them. */
  datatype State = State(tasks: map<nat, Task>, store: map<Handle, Entry>, workers: map<nat, Worker>,
                         late: map<nat, Pub>, nextToken: nat, shutdown: bool)

  /** How a task-repository call ended: it changed the task and said so, refused, or reported an
      error with or without having changed it. */
  datatype Reply = Applied | Refused | LostReply | NoEffect

  /** Non-pending roots an evaluation can persist. */
  datatype Root = Satisfied(now: int) | Unsatisfied

  datatype Action =
    | Admit(task: nat, identity: Identity)
    | OtherWrite(handle: Handle, entry: Entry)
    | Land(id: nat, effective: bool)
    | RequestShutdown
    | Ask(w: nat)
    | Claim(w: nat, task: nat, reply: Reply)
    | LookAfterClaim(w: nat)
    | ReleaseClaim(w: nat, reply: Reply)
    | Persist(w: nat, root: Root, reply: Reply)
    | Schedule(w: nat, reply: Reply)
    | Acquire(w: nat, reply: Reply)
    | LookAfterAcquire(w: nat)
    | BackOut(w: nat, ok: bool)
    | Get(w: nat, ok: bool)
    | InsertLook(w: nat, ok: bool)
    | Put(w: nat, reply: Reply)
    | PutLate(w: nat)
    | ReadBack(w: nat, ok: bool)
    | Complete(w: nat, reply: Reply)
    | Release(w: nat, ok: bool)
    | Again(w: nat)
    | Crash(w: nat)

  // ---------------------------------------------------------------- ports

  function PayloadFor(id: Identity, now: int): Payload {
    Payload(id.creator, id.reader, id.bundleId, id.resource, now, id.evaluator)
  }

  function HandleOf(p: Payload): Handle { Handle(p.creator, p.bundleId) }

  function TaskHandle(id: Identity): Handle { Handle(id.creator, id.bundleId) }

  predicate Claimable(t: Task) { t.status in {Pending, InProgress, Publishing} }

  /** The fence on every claim-conditional write. */
  predicate Live(s: State, task: nat, token: nat, revision: nat) {
    task in s.tasks && s.tasks[task].claim == Some(token) && s.tasks[task].revision == revision
  }

  predicate LiveFenced(s: State, p: Pub) {
    && Live(s, p.task, p.token, p.revision)
    && s.tasks[p.task].status == Publishing
    && s.tasks[p.task].fence == Some(p.fence)
  }

  function Granted(t: Task, token: nat): Task {
    t.(status := if t.status == Publishing then Publishing else InProgress, claim := Some(token))
  }

  function Unclaimed(t: Task): Task {
    t.(status := if t.status == InProgress then Pending else t.status, claim := None)
  }

  function Persisted(t: Task, root: Root, nextToken: nat): Task {
    if root.Satisfied?
    then t.(status := Publishing, revision := t.revision + 1,
            payload := Some(PayloadFor(t.identity, root.now)), fence := Some(nextToken))
    else t.(status := Ended, revision := t.revision + 1, claim := None)
  }

  function Scheduled(t: Task): Task { t.(status := Pending, revision := t.revision + 1, claim := None) }

  function Finished(t: Task): Task { t.(status := Completed, fence := None, claim := None) }

  /** `get_verified_proof_bundle_v2`: a v1 entry at the path reads as absent. */
  function GetV2(store: map<Handle, Entry>, h: Handle): Option<Payload> {
    if h in store && store[h].V2? then Some(store[h].payload) else None
  }

  /** The path is free or holds the very same entry. */
  predicate Insertable(store: map<Handle, Entry>, p: Payload) {
    HandleOf(p) in store ==> store[HandleOf(p)] == V2(p)
  }

  predicate Holds(store: map<Handle, Entry>, p: Payload) {
    HandleOf(p) in store && store[HandleOf(p)] == V2(p)
  }

  // ---------------------------------------------------------------- the worker program

  predicate Effective(r: Reply) { r.Applied? || r.LostReply? }

  /** Entry of `publish_claimed_entitlement`: payload and fence must both be there. */
  function BeginPublish(task: nat, token: nat, revision: nat, record: Task): Pc {
    if record.payload.None? || record.fence.None? then Done(task, Failed(MissingPayload))
    else Acquiring(Pub(task, token, revision, record.payload.value, record.fence.value))
  }

  function AfterClaim(h: Held, shutdown: bool): Pc {
    if shutdown then ReleasingClaim(h.task, h.token)
    else if h.record.status == Publishing then BeginPublish(h.task, h.token, h.record.revision, h.record)
    else Evaluating(h)
  }

  /** A task write was refused or failed: the tick it ends in. */
  function Unapplied(r: Reply): Tick { if r.Refused? then ClaimLost else Failed(Storage) }

  function AfterGet(p: Pub, existing: Option<Payload>): Pc {
    match existing
    case None => Inserting(p)
    case Some(e) => if e == p.payload then Completing(p) else Releasing(p, Failed(Conflict))
  }

  /** `insert_verified_proof_bundle_v2` after its own read: an equal entry is success, a different
      one an error, and only a free path is written to. */
  function AfterInsertLook(p: Pub, store: map<Handle, Entry>): Pc {
    if HandleOf(p.payload) !in store then Putting(p)
    else if Holds(store, p.payload) then ReadingBack(p)
    else Releasing(p, Deferred)
  }

  function AfterRelease(p: Pub, tick: Tick, ok: bool): Pc {
    Done(p.task, if tick.Failed? || ok then tick else Failed(Storage))
  }

  predicate HasPc(s: State, w: nat) { w in s.workers }

  /** Which actions a state offers. Claim-conditional writes are effective only when live; no two
      tasks are admitted with the same handle. */
  predicate Enabled(s: State, a: Action) {
    match a
    case Admit(t, id) =>
      t !in s.tasks && forall u :: u in s.tasks ==> TaskHandle(s.tasks[u].identity) != TaskHandle(id)
    case OtherWrite(_, _) => true
    case Land(id, _) => id in s.late
    case RequestShutdown => true
    case Ask(w) => HasPc(s, w) && s.workers[w].pc.Idle?
    case Claim(w, t, r) =>
      HasPc(s, w) && s.workers[w].pc.Asking? && (Effective(r) ==> t in s.tasks && Claimable(s.tasks[t]))
    case LookAfterClaim(w) => HasPc(s, w) && s.workers[w].pc.Claimed?
    case ReleaseClaim(w, r) =>
      && HasPc(s, w) && s.workers[w].pc.ReleasingClaim?
      && (Effective(r) ==> var pc := s.workers[w].pc; pc.task in s.tasks && s.tasks[pc.task].claim == Some(pc.token))
    case Persist(w, _, r) =>
      && HasPc(s, w) && s.workers[w].pc.Evaluating?
      && (Effective(r) ==> var h := s.workers[w].pc.held; Live(s, h.task, h.token, h.record.revision))
    case Schedule(w, r) =>
      && HasPc(s, w) && s.workers[w].pc.Evaluating?
      && (Effective(r) ==> var h := s.workers[w].pc.held; Live(s, h.task, h.token, h.record.revision))
    case Acquire(w, r) =>
      HasPc(s, w) && s.workers[w].pc.Acquiring? && !r.LostReply? && (r.Applied? ==> LiveFenced(s, s.workers[w].pc.pub))
    case LookAfterAcquire(w) => HasPc(s, w) && s.workers[w].pc.Guarded?
    case BackOut(w, _) => HasPc(s, w) && s.workers[w].pc.BackingOut?
    case Get(w, _) => HasPc(s, w) && s.workers[w].pc.Reading?
    case InsertLook(w, _) => HasPc(s, w) && s.workers[w].pc.Inserting?
    case Put(w, r) => HasPc(s, w) && s.workers[w].pc.Putting? && !r.Refused?
    case PutLate(w) => HasPc(s, w) && s.workers[w].pc.Putting?
    case ReadBack(w, _) => HasPc(s, w) && s.workers[w].pc.ReadingBack?
    case Complete(w, r) =>
      HasPc(s, w) && s.workers[w].pc.Completing? && (Effective(r) ==> LiveFenced(s, s.workers[w].pc.pub))
    case Release(w, _) => HasPc(s, w) && s.workers[w].pc.Releasing?
    case Again(w) => HasPc(s, w) && s.workers[w].pc.Done?
    case Crash(w) => HasPc(s, w)
  }

  predicate Holding(pc: Pc) {
    pc.Guarded? || pc.BackingOut? || pc.Reading? || pc.Inserting? || pc.Putting? || pc.ReadingBack?
    || pc.Completing? || pc.Releasing?
  }

  /** The worker, if any, that takes the step. */
  function Actor(a: Action): Option<nat> {
    if a.Admit? || a.OtherWrite? || a.Land? || a.RequestShutdown? then None else Some(a.w)
  }

  // What a step does to the tasks, the store, the late writes, the token supply and its worker.

  function TasksAfter(s: State, a: Action): map<nat, Task>
    requires Enabled(s, a)
  {
    match a
    case Admit(t, id) => s.tasks[t := Task(id, Pending, 0, None, None, None)]
    case Claim(_, t, r) => if Effective(r) then s.tasks[t := Granted(s.tasks[t], s.nextToken)] else s.tasks
    case ReleaseClaim(w, r) =>
      var t := s.workers[w].pc.task;
      if Effective(r) then s.tasks[t := Unclaimed(s.tasks[t])] else s.tasks
    case Persist(w, root, r) =>
      var t := s.workers[w].pc.held.task;
      if Effective(r) then s.tasks[t := Persisted(s.tasks[t], root, s.nextToken)] else s.tasks
    case Schedule(w, r) =>
      var t := s.workers[w].pc.held.task;
      if Effective(r) then s.tasks[t := Scheduled(s.tasks[t])] else s.tasks
    case Complete(w, r) =>
      var t := s.workers[w].pc.pub.task;
      if Effective(r) then s.tasks[t := Finished(s.tasks[t])] else s.tasks
    case _ => s.tasks
  }

  /** The publication, if any, whose payload the step writes to the store. */
  function Landed(s: State, a: Action): Option<Pub>
    requires Enabled(s, a)
  {
    if a.Put? && Effective(a.reply) then Some(s.workers[a.w].pc.pub)
    else if a.Land? && a.effective then Some(s.late[a.id])
    else None
  }

  function StoreAfter(s: State, a: Action): map<Handle, Entry>
    requires Enabled(s, a)
  {
    if a.OtherWrite? then s.store[a.handle := a.entry]
    else match Landed(s, a)
         case None => s.store
         case Some(p) => s.store[HandleOf(p.payload) := V2(p.payload)]
  }

  function LateAfter(s: State, a: Action): map<nat, Pub>
    requires Enabled(s, a)
  {
    if a.Land? then s.late - {a.id}
    else if a.PutLate? then s.late[s.nextToken := s.workers[a.w].pc.pub]
    else s.late
  }

  function TokenAfter(s: State, a: Action): nat {
    if a.PutLate? || ((a.Claim? || a.Persist?) && Effective(a.reply)) then s.nextToken + 1 else s.nextToken
  }

  function PcAfter(s: State, a: Action): Pc
    requires Enabled(s, a) && Actor(a).Some?
  {
    var pc := s.workers[a.w].pc;
    match a
    case Ask(_) => if s.shutdown then Idle else Asking
    case Claim(_, t, r) =>
      if r.Refused? then Idle
      else if r.NoEffect? then Done(t, Failed(Storage))
      else if r.LostReply? then Done(t, Failed(Storage))
      else Claimed(Held(t, s.nextToken, Granted(s.tasks[t], s.nextToken)))
    case LookAfterClaim(_) => AfterClaim(pc.held, s.shutdown)
    case ReleaseClaim(_, r) => Done(pc.task, if r.Applied? || r.Refused? then ClaimLost else Failed(Storage))
    case Persist(_, root, r) =>
      var h := pc.held;
      if !Effective(r) then Done(h.task, Unapplied(r))
      else if r.LostReply? then Done(h.task, Failed(Storage))
      else
        var task := Persisted(s.tasks[h.task], root, s.nextToken);
        if task.status == Publishing then BeginPublish(h.task, h.token, h.record.revision + 1, task)
        else Done(h.task, Terminal)
    case Schedule(_, r) => Done(pc.held.task, if r.Applied? then RetryScheduled else Unapplied(r))
    case Acquire(_, r) => if r.Applied? then Guarded(pc.pub) else Done(pc.pub.task, Unapplied(r))
    case LookAfterAcquire(_) => if s.shutdown then BackingOut(pc.pub) else Reading(pc.pub)
    case BackOut(_, ok) =>
      if ok then ReleasingClaim(pc.pub.task, pc.pub.token) else Done(pc.pub.task, Failed(Storage))
    case Get(_, ok) =>
      if ok then AfterGet(pc.pub, GetV2(s.store, HandleOf(pc.pub.payload))) else Releasing(pc.pub, Deferred)
    case InsertLook(_, ok) => if ok then AfterInsertLook(pc.pub, s.store) else Releasing(pc.pub, Deferred)
    case Put(_, r) => if r.Applied? then ReadingBack(pc.pub) else Releasing(pc.pub, Deferred)
    case PutLate(_) => Releasing(pc.pub, Deferred)
    case ReadBack(_, ok) =>
      if ok && GetV2(s.store, HandleOf(pc.pub.payload)) == Some(pc.pub.payload) then Completing(pc.pub)
      else Releasing(pc.pub, Deferred)
    case Complete(_, r) => Releasing(pc.pub, if r.Applied? then Published else Unapplied(r))
    case Release(_, ok) => AfterRelease(pc.pub, pc.tick, ok)
    case Again(_) => Idle
    case Crash(_) => Idle
  }

  /** A guard release is counted as called whether or not it reports success. */
  function Moved(s: State, a: Action): Worker
    requires Enabled(s, a) && Actor(a).Some?
  {
    var k := s.workers[a.w];
    Worker(PcAfter(s, a),
           k.acquired + (if a.Acquire? && a.reply.Applied? then 1 else 0),
           k.released + (if a.BackOut? || a.Release? then 1 else 0),
           k.dropped + (if a.Crash? && Holding(k.pc) then 1 else 0))
  }

  function Apply(s: State, a: Action): State
    requires Enabled(s, a)
  {
    State(TasksAfter(s, a), StoreAfter(s, a),
          if Actor(a).Some? then s.workers[a.w := Moved(s, a)] else s.workers,
          LateAfter(s, a), TokenAfter(s, a), s.shutdown || a.RequestShutdown?)
  }
}
