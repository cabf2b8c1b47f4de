/** The runtime supervisor (`runtime.rs`): it owns every root task, stops the workers, only then
    signals the services, drains everything and reports the first failure. The environment is an
    arbitrary order of task completions, a shutdown request that may or may not precede the first
    of them, and a drain timeout that may strike after any number of them. */
module Supervisor {
  import opened Common

  datatype OwnedTask = Http | PkarrRepublisher | FoldedAuthCleanup | Verification | Deletion | Unknown

  function Label(t: OwnedTask): string {
    match t
    case Http => "HTTP server"
    case PkarrRepublisher => "PKARR republisher"
    case FoldedAuthCleanup => "folded auth cleanup"
    case Verification => "verification worker"
    case Deletion => "deletion worker"
    case Unknown => "owned runtime task"
  }

  predicate IsWorker(t: OwnedTask) { t.Verification? || t.Deletion? }

  /** How a root task ended: its own result, or a join error. */
  datatype Exit = Success | Error(message: string) | Panic | Cancelled

  datatype RuntimeError = UnexpectedExit(what: string) | TaskFailed(task: string, message: string)
                        | TaskPanicked(task: string) | ShutdownTimedOut

  datatype Completion = Completion(id: nat, exit: Exit)

  /** `early`: the shutdown request came before any completion. `timeout`: the drain timer fires
      when this many completions have been joined. */
  datatype Environment = Environment(order: seq<Completion>, early: bool, timeout: Option<nat>)

  /** The ids completing from position `n` on. */
  ghost function Remaining(order: seq<Completion>, n: nat): set<nat>
    decreases |order| - n
  {
    if n >= |order| then {} else {order[n].id} + Remaining(order, n + 1)
  }

  /** Every spawned root completes exactly once. */
  ghost predicate Completes(order: seq<Completion>, tasks: map<nat, OwnedTask>) {
    Spawned(order, tasks) && DistinctFrom(order, 0) && Remaining(order, 0) == tasks.Keys
  }

  predicate Spawned(order: seq<Completion>, tasks: map<nat, OwnedTask>) {
    forall k :: 0 <= k < |order| ==> order[k].id in tasks
  }

  ghost predicate DistinctFrom(order: seq<Completion>, n: nat)
    decreases |order| - n
  {
    n >= |order| || (order[n].id !in Remaining(order, n + 1) && DistinctFrom(order, n + 1))
  }

  // ---------------------------------------------------------------- the verdict, stated without loops

  /** A join error or a failed result, whoever it comes from and whenever. */
  function Failed(t: OwnedTask, e: Exit): Option<RuntimeError> {
    match e
    case Success => None
    case Error(m) => Some(TaskFailed(Label(t), m))
    case Panic => Some(TaskPanicked(Label(t)))
    case Cancelled => Some(UnexpectedExit(Label(t)))
  }

  /** Each kind of exit has its own error, and the error names the task: a failure with its message,
      a panic as a panic, a cancellation as an end nobody asked for. */
  lemma ErrorPerExit(t: OwnedTask, e: Exit)
    ensures Failed(t, e).None? <==> e.Success?
    ensures e.Error? ==> Failed(t, e) == Some(TaskFailed(Label(t), e.message))
    ensures e.Panic? ==> Failed(t, e) == Some(TaskPanicked(Label(t)))
    ensures e.Cancelled? ==> Failed(t, e) == Some(UnexpectedExit(Label(t)))
  {}

  lemma LabelEnds(t: OwnedTask)
    ensures IsWorker(t) ==> |Label(t)| > 7 && Label(t)[|Label(t)| - 7..] == " worker"
    ensures !IsWorker(t) ==> |Label(t)| > 7 && Label(t)[|Label(t)| - 6] != 'w'
  {
    if t.Verification? {
      assert "verification worker"[12..] == " worker";
    } else if t.Deletion? {
      assert "deletion worker"[8..] == " worker";
    } else {
      assert " worker"[1] == 'w';
    }
  }

  /** No two tasks share a label, and the workers are the ones labelled so. */
  lemma LabelsIdentify(t: OwnedTask, v: OwnedTask)
    ensures Label(t) == Label(v) ==> t == v
    ensures IsWorker(t) <==> |Label(t)| > 7 && Label(t)[|Label(t)| - 7..] == " worker"
  {
    LabelEnds(t);
    assert |Label(Http)| == 11 && |Label(PkarrRepublisher)| == 17 && |Label(Verification)| == 19;
    assert |Label(Deletion)| == 15 && |Label(Unknown)| == 18;
    assert Label(FoldedAuthCleanup)[0] == 'f' && Label(Verification)[0] == 'v';
  }

  /** Some worker is still running when completion `k` is joined. */
  predicate WorkerOutlives(env: Environment, tasks: map<nat, OwnedTask>, k: nat) {
    exists j :: k < j < |env.order| && env.order[j].id in tasks && IsWorker(tasks[env.order[j].id])
  }

  /** What completion `k` holds against the runtime: a failure, an end nobody asked for, or a
      service gone before the last worker. */
  function Offence(env: Environment, tasks: map<nat, OwnedTask>, k: nat): Option<RuntimeError>
    requires k < |env.order| && env.order[k].id in tasks
  {
    var t, e := tasks[env.order[k].id], env.order[k].exit;
    if !e.Success? then Failed(t, e)
    else if k == 0 && !env.early then Some(UnexpectedExit(Label(t)))
    else if !IsWorker(t) && WorkerOutlives(env, tasks, k) then Some(UnexpectedExit(Label(t)))
    else None
  }

  function FirstOffence(env: Environment, tasks: map<nat, OwnedTask>, n: nat): Option<RuntimeError>
    requires n <= |env.order| && Spawned(env.order, tasks)
  {
    if n == 0 then None
    else if FirstOffence(env, tasks, n - 1).Some? then FirstOffence(env, tasks, n - 1)
    else Offence(env, tasks, n - 1)
  }

  lemma {:induction false} FirstOffenceIsFirst(env: Environment, tasks: map<nat, OwnedTask>, n: nat)
    requires n <= |env.order| && Spawned(env.order, tasks)
    ensures FirstOffence(env, tasks, n).None? <==> forall k :: 0 <= k < n ==> Offence(env, tasks, k).None?
    ensures FirstOffence(env, tasks, n).Some? ==>
      exists k :: 0 <= k < n && Offence(env, tasks, k) == FirstOffence(env, tasks, n)
                  && forall j :: 0 <= j < k ==> Offence(env, tasks, j).None?
  {
    if n > 0 {
      FirstOffenceIsFirst(env, tasks, n - 1);
    }
  }

  /** Completions joined before the drain ends or the timer wins. At least the one that ended an
      undisturbed run has been joined by then. */
  function Joined(env: Environment): nat {
    var least := if env.early || env.order == [] then 0 else 1;
    if env.timeout.None? || env.timeout.value >= |env.order| then |env.order|
    else if env.timeout.value < least then least else env.timeout.value
  }

  function Verdict(env: Environment, tasks: map<nat, OwnedTask>): Option<RuntimeError>
    requires Spawned(env.order, tasks)
  {
    if env.order == [] then (if env.early then None else Some(UnexpectedExit("runtime task set")))
    else if FirstOffence(env, tasks, Joined(env)).Some? then FirstOffence(env, tasks, Joined(env))
    else if Joined(env) < |env.order| then Some(ShutdownTimedOut)
    else None
  }

  /** The verdict in plain terms. The runtime succeeds if and only if shutdown was requested
      before any root ended, the drain beat its timer, every root returned success and no service
      ended while a worker was still running; otherwise it reports the earliest offence joined,
      and the timeout only when there was none. */
  lemma VerdictIsExact(env: Environment, tasks: map<nat, OwnedTask>)
    requires Spawned(env.order, tasks)
    ensures Verdict(env, tasks).None? <==>
      && env.early && Joined(env) == |env.order|
      && (forall k :: 0 <= k < |env.order| ==> env.order[k].exit.Success?)
      && (forall k :: 0 <= k < |env.order| && WorkerOutlives(env, tasks, k) ==> IsWorker(tasks[env.order[k].id]))
    ensures Verdict(env, tasks) == Some(ShutdownTimedOut) <==>
      Joined(env) < |env.order| && forall k :: 0 <= k < Joined(env) ==> Offence(env, tasks, k).None?
    ensures Verdict(env, tasks).Some? && Verdict(env, tasks) != Some(ShutdownTimedOut) && env.order != [] ==>
      exists k :: 0 <= k < Joined(env) && Offence(env, tasks, k) == Verdict(env, tasks)
                  && forall j :: 0 <= j < k ==> Offence(env, tasks, j).None?
  {
    FirstOffenceIsFirst(env, tasks, Joined(env));
    if env.order != [] && Joined(env) == |env.order| {
      if !env.early {
        assert Offence(env, tasks, 0).Some?;
      } else {
        assert forall k :: 0 <= k < |env.order| ==>
          (Offence(env, tasks, k).None? <==>
             env.order[k].exit.Success? && (WorkerOutlives(env, tasks, k) ==> IsWorker(tasks[env.order[k].id])));
      }
    }
  }

  // ---------------------------------------------------------------- what is still running

  /** The roots still running once the first `n` completions have been joined. */
  ghost function Live(env: Environment, tasks: map<nat, OwnedTask>, n: nat): map<nat, OwnedTask> {
    map id | id in tasks && id in Remaining(env.order, n) :: tasks[id]
  }

  ghost function WorkerIds(m: map<nat, OwnedTask>): set<nat> { set id | id in m && IsWorker(m[id]) }

  lemma LiveNext(env: Environment, tasks: map<nat, OwnedTask>, n: nat)
    requires Spawned(env.order, tasks) && n < |env.order| && DistinctFrom(env.order, n)
    ensures DistinctFrom(env.order, n + 1) && env.order[n].id in Live(env, tasks, n)
    ensures Live(env, tasks, n + 1) == Live(env, tasks, n) - {env.order[n].id}
  {
    assert Live(env, tasks, n + 1) == Live(env, tasks, n) - {env.order[n].id};
  }

  /** Workers among the completions from `n` on. */
  ghost function WorkersFrom(env: Environment, tasks: map<nat, OwnedTask>, n: nat): nat
    requires Spawned(env.order, tasks)
    decreases |env.order| - n
  {
    if n >= |env.order| then 0
    else (if IsWorker(tasks[env.order[n].id]) then 1 else 0) + WorkersFrom(env, tasks, n + 1)
  }

  /** The running count is the number of worker roots alive. */
  lemma {:induction false} CountIsAlive(env: Environment, tasks: map<nat, OwnedTask>, n: nat)
    requires Spawned(env.order, tasks) && DistinctFrom(env.order, n)
    ensures WorkersFrom(env, tasks, n) == |WorkerIds(Live(env, tasks, n))|
    decreases |env.order| - n
  {
    if n >= |env.order| {
      assert WorkerIds(Live(env, tasks, n)) == {};
    } else {
      LiveNext(env, tasks, n);
      CountIsAlive(env, tasks, n + 1);
      var m, id := Live(env, tasks, n), env.order[n].id;
      assert WorkerIds(m - {id}) == WorkerIds(m) - {id};
      if !IsWorker(m[id]) { assert WorkerIds(m) - {id} == WorkerIds(m); }
    }
  }

  lemma NoneAlive(env: Environment, tasks: map<nat, OwnedTask>, n: nat)
    requires Spawned(env.order, tasks) && DistinctFrom(env.order, n) && WorkersFrom(env, tasks, n) == 0
    ensures WorkerIds(Live(env, tasks, n)) == {}
  {
    CountIsAlive(env, tasks, n);
  }

  /** A worker outlives completion `k` exactly when one is counted after it. */
  lemma {:induction false} OutlivesIffCounted(env: Environment, tasks: map<nat, OwnedTask>, k: int)
    requires Spawned(env.order, tasks) && -1 <= k
    ensures (exists j :: k < j < |env.order| && IsWorker(tasks[env.order[j].id])) <==>
        WorkersFrom(env, tasks, k + 1) > 0
    decreases |env.order| - k
  {
    if k + 1 < |env.order| {
      OutlivesIffCounted(env, tasks, k + 1);
    }
  }

  // ---------------------------------------------------------------- the supervisor

  class Runtime {
    const env: Environment
    const tasks: map<nat, OwnedTask>
    var roots: map<nat, OwnedTask>       // the JoinSet: what is still running
    var rootTasks: map<nat, OwnedTask>   // the supervisor's own index of it
    var workersRemaining: nat
    var failure: Option<RuntimeError>
    var joined: nat
    var workerShutdown: bool
    var serviceShutdown: bool
    ghost var liveAtServiceShutdown: map<nat, OwnedTask>

    /** The index is exact and so is the worker count, at every await point. */
    ghost predicate Valid()
      reads this
    {
      && joined <= |env.order| && Spawned(env.order, tasks) && DistinctFrom(env.order, joined)
      && roots == Live(env, tasks, joined)
      && rootTasks == roots
      && workersRemaining == WorkersFrom(env, tasks, joined)
      && (serviceShutdown ==> WorkerIds(liveAtServiceShutdown) == {})
    }

    constructor (environment: Environment, spawned: map<nat, OwnedTask>)
      requires Completes(environment.order, spawned)
      ensures Valid() && env == environment && tasks == spawned
      ensures joined == 0 && failure == None && !workerShutdown && !serviceShutdown
    {
      env, tasks := environment, spawned;
      roots, rootTasks := spawned, spawned;
      workersRemaining := |set id | id in spawned && IsWorker(spawned[id])|;
      failure, joined := None, 0;
      workerShutdown, serviceShutdown, liveAtServiceShutdown := false, false, map[];
      assert Live(environment, spawned, 0) == spawned;
      assert WorkerIds(spawned) == set id | id in spawned && IsWorker(spawned[id]);
      CountIsAlive(environment, spawned, 0);
    }

    /** `join_next_owned`, with the count its callers keep. The task is the one that was spawned:
        `Unknown` is never produced, and the saturating decrement never saturates. */
    method JoinNext() returns (task: OwnedTask, exit: Exit)
      requires Valid() && joined < |env.order|
      modifies this`roots, this`rootTasks, this`joined, this`workersRemaining
      ensures Valid() && joined == old(joined) + 1
      ensures task == tasks[env.order[old(joined)].id] && exit == env.order[old(joined)].exit
    {
      var c := env.order[joined];
      LiveNext(env, tasks, joined);
      task := if c.id in rootTasks then rootTasks[c.id] else Unknown;
      exit := c.exit;
      roots := roots - {c.id};
      rootTasks := rootTasks - {c.id};
      joined := joined + 1;
      if IsWorker(task) && workersRemaining > 0 {
        workersRemaining := workersRemaining - 1;
      }
    }

    method Record(e: Option<RuntimeError>)
      modifies this`failure
      ensures failure == if old(failure).Some? then old(failure) else e
    {
      if failure.None? { failure := e; }
    }

    /** One completion joined while the workers stop (`stopping`) or while the services drain. */
    method JoinAndClassify(stopping: bool)
      requires Valid() && joined < |env.order| && (env.early || joined >= 1)
      requires failure == FirstOffence(env, tasks, joined)
      requires stopping <==> workersRemaining > 0
      modifies this`roots, this`rootTasks, this`joined, this`workersRemaining, this`failure
      ensures Valid() && joined == old(joined) + 1
      ensures failure == FirstOffence(env, tasks, joined)
    {
      ghost var k := joined;
      LiveNext(env, tasks, k);
      OutlivesIffCounted(env, tasks, k);
      var task, exit := JoinNext();
      if stopping && !IsWorker(task) && exit.Success? {
        Record(Some(UnexpectedExit(Label(task))));
      } else {
        Record(Failed(task, exit));
      }
    }

    /** The worker loop of `stop_workers_then_drain_services`, cut off by the timer when `limit`
        completions have been joined. A worker still counted is a completion still to come, so the
        loop never finds the task set empty. */
    method StopWorkers(limit: nat) returns (timedOut: bool)
      requires Valid() && joined <= limit <= |env.order| && (env.early || joined >= 1)
      requires failure == FirstOffence(env, tasks, joined)
      modifies this`roots, this`rootTasks, this`joined, this`workersRemaining, this`failure
      ensures Valid() && old(joined) <= joined <= limit
      ensures failure == FirstOffence(env, tasks, joined)
      ensures if timedOut then joined == limit < |env.order| else workersRemaining == 0
    {
      while workersRemaining > 0
        invariant Valid() && old(joined) <= joined <= limit
        invariant failure == FirstOffence(env, tasks, joined)
        decreases |env.order| - joined
      {
        if joined == limit { return true; }
        JoinAndClassify(true);
      }
      timedOut := false;
    }

    /** `drain`, under the same timer. */
    method Drain(limit: nat) returns (timedOut: bool)
      requires Valid() && joined <= limit <= |env.order| && (env.early || joined >= 1) && workersRemaining == 0
      requires failure == FirstOffence(env, tasks, joined)
      modifies this`roots, this`rootTasks, this`joined, this`workersRemaining, this`failure
      ensures Valid() && joined == limit && timedOut == (limit < |env.order|)
      ensures failure == FirstOffence(env, tasks, limit)
    {
      while joined < |env.order|
        invariant Valid() && old(joined) <= joined <= limit && workersRemaining == 0
        invariant failure == FirstOffence(env, tasks, joined)
      {
        if joined == limit { return true; }
        JoinAndClassify(false);
      }
      timedOut := false;
    }

    /** `stop_workers_then_drain_services`: the services are signalled between the two loops. */
    method StopWorkersThenDrain(limit: nat) returns (timedOut: bool)
      requires Valid() && joined <= limit <= |env.order| && (env.early || joined >= 1) && !serviceShutdown
      requires failure == FirstOffence(env, tasks, joined)
      modifies this`roots, this`rootTasks, this`joined, this`workersRemaining, this`failure,
               this`serviceShutdown, this`liveAtServiceShutdown
      ensures Valid() && joined == limit && timedOut == (limit < |env.order|)
      ensures failure == FirstOffence(env, tasks, limit)
      ensures !timedOut ==> serviceShutdown
    {
      timedOut := StopWorkers(limit);
      if timedOut { return; }
      NoneAlive(env, tasks, joined);
      serviceShutdown, liveAtServiceShutdown := true, roots;
      timedOut := Drain(limit);
    }

    /** `abort_all`, then whatever is left is joined in whatever order, ignoring how it ended. */
    method AbortAll()
      modifies this`roots
      ensures roots == map[]
    {
      while roots != map[]
        decreases |roots|
      {
        var id :| id in roots;
        assert (roots - {id}).Keys == roots.Keys - {id};
        roots := roots - {id};
      }
    }

    /** `supervise`. Whatever the completion order: the result is the exact verdict, the services
        are told to stop only when no worker is alive (and always told, unless the timer cut the
        drain short), the workers always are, and every root has been joined on return. The index of roots is
        exact until a timeout aborts them and is not used after it. */
    method Supervise() returns (result: Option<RuntimeError>)
      requires Valid()
      requires joined == 0 && failure == None && !workerShutdown && !serviceShutdown
      modifies this
      ensures result == Verdict(env, tasks)
      ensures workerShutdown
      ensures serviceShutdown ==> WorkerIds(liveAtServiceShutdown) == {}
      ensures Joined(env) == |env.order| ==> serviceShutdown
      ensures roots == map[]
      ensures Joined(env) == |env.order| ==> rootTasks == map[] && workersRemaining == 0
    {
      if !env.early {
        if env.order == [] {
          failure := Some(UnexpectedExit("runtime task set"));
        } else {
          var task, exit := JoinNext();
          failure := if exit.Success? then Some(UnexpectedExit(Label(task))) else Failed(task, exit);
          assert FirstOffence(env, tasks, 0) == None && failure == Offence(env, tasks, 0);
        }
      }
      workerShutdown := true;
      if env.order == [] {
        serviceShutdown, liveAtServiceShutdown := true, roots;
        return failure;
      }
      var timedOut := StopWorkersThenDrain(Joined(env));
      if timedOut {
        AbortAll();
        result := if failure.Some? then failure else Some(ShutdownTimedOut);
      } else {
        result := failure;
      }
    }
  }
}
