/** Recording concurrent Nexus observations (`apply_observation` in `graph_worker.rs`,
    `record_nexus_observation` in `models/graph0conf.rs`). Error messages are not modelled:
    a failed call is `Err`. */
module GraphObservations {
  import opened Common
  import opened GraphSnapshot

  const FALSE_REPOLL_SECONDS: nat := 5

  datatype Nexus =
    | Answer(value: bool, origin: string, status: nat)
    | Malformed(origin: string, status: nat)
    | Operational(category: Category, origin: string, maybeStatus: Option<nat>, retryAfter: Option<nat>)

  /** One joined check: which predicate, what was seen, when, and the milliseconds its jitter draw
      would give for each base delay in seconds. */
  datatype Joined = Joined(index: nat, seen: Nexus, at: int, jitter: nat -> nat)

  // ---------------------------------------------------------------- the model methods, snapshot by snapshot

  /** `record_observation`. */
  function Record(s: Snapshot, i: nat, outcome: Outcome, at: int): Result<Snapshot> {
    if !Valid(s) || s.root != Pending || !(s.acceptedAt <= at <= s.deadlineAt) || i >= |s.predicates| then Err
    else
      var p := s.predicates[i];
      if p.latest.Some? && at < p.latest.value.at then Err
      else
        var o := Observation(outcome, at, None, None);
        var firstTrue := if outcome == True && p.firstTrue.None? then Some(o) else p.firstTrue;
        var p' := p.(latest := Some(o), firstTrue := firstTrue);
        var s' := s.(predicates := s.predicates[i := p']);
        if Valid(s') then Ok(s') else Err
  }

  /** The second half of `record_nexus_observation`, on the predicate `Record` has just touched. */
  function Annotated(p: Predicate, outcome: Outcome, at: int, origin: string, status: Option<nat>,
                     category: Option<Category>, nextDue: Option<int>, failures: U32): Result<Predicate> {
    var o := Observation(outcome, at, Some(origin), status);
    var p1 := p.(latest := Some(o), firstTrue := if outcome == True then Some(o) else p.firstTrue,
                 nextDue := nextDue, failureCount := failures);
    if category.None? then (if failures != 0 then Err else Ok(p1))
    else if outcome != DependencyUnavailable || p.failureTotal >= U32_MAX then Err
    else Ok(p1.(failureTotal := p.failureTotal + 1,
                firstFailureAt := if p.firstFailureAt.Some? then p.firstFailureAt else Some(at),
                lastFailureAt := Some(at), lastCategory := category, lastHttpStatus := status))
  }

  function RecordNexus(s: Snapshot, i: nat, outcome: Outcome, at: int, origin: string, status: Option<nat>,
                       category: Option<Category>, nextDue: Option<int>, failures: U32): Result<Snapshot> {
    match Record(s, i, outcome, at)
    case Err => Err
    case Ok(r) =>
      match Annotated(r.predicates[i], outcome, at, origin, status, category, nextDue, failures)
      case Err => Err
      case Ok(p) =>
        var s' := r.(predicates := r.predicates[i := p]);
        if Valid(s') then Ok(s') else Err
  }

  function Terminalize(s: Snapshot, i: nat, at: int, origin: string, status: nat): Result<Snapshot> {
    match RecordNexus(s, i, DependencyUnavailable, at, origin, Some(status), None, None, 0)
    case Err => Err
    case Ok(r) =>
      var s' := r.(predicates := r.predicates[i := r.predicates[i].(terminalInvalid := true)]);
      if Valid(s') then Ok(s') else Err
  }

  function Max(a: int, b: int): int { if a >= b then a else b }

  /** `clamp_due`. */
  function ClampDue(now: int, delayMillis: nat, deadline: int): int { Min(now + delayMillis * MILLI, deadline) }

  /** A server-given `Retry-After` is capped at a minute and not jittered. */
  function OperationalDelay(j: Joined, failures: U32): nat
    requires j.seen.Operational?
  {
    if j.seen.retryAfter.Some? then Min(j.seen.retryAfter.value, 60) * 1000 else j.jitter(BackoffSeconds(failures))
  }

  /** `apply_observation`. */
  function ApplyOne(s: Snapshot, j: Joined): Result<Snapshot> {
    match j.seen
    case Answer(value, origin, status) =>
      RecordNexus(s, j.index, if value then True else False, j.at, origin, Some(status), None,
                  if value then None else Some(ClampDue(j.at, j.jitter(FALSE_REPOLL_SECONDS), s.deadlineAt)), 0)
    case Malformed(origin, status) => Terminalize(s, j.index, j.at, origin, status)
    case Operational(category, origin, status, _) =>
      if j.index >= |s.predicates| then Err
      else
        var failures := Min(s.predicates[j.index].failureCount + 1, U32_MAX);
        RecordNexus(s, j.index, DependencyUnavailable, j.at, origin, status, Some(category),
                    Some(ClampDue(j.at, OperationalDelay(j, failures), s.deadlineAt)), failures)
  }

  /** Joining the checks in one order; observations after the deadline are skipped. */
  function ApplyAll(s: Snapshot, js: seq<Joined>): Result<Snapshot>
    decreases |js|
  {
    if js == [] then Ok(s)
    else if js[0].at > s.deadlineAt then ApplyAll(s, js[1..])
    else match ApplyOne(s, js[0])
         case Err => Err
         case Ok(s') => ApplyAll(s', js[1..])
  }

  /** The join loop of a tick. */
  method JoinObservations(s: Snapshot, js: seq<Joined>) returns (r: Result<Snapshot>)
    ensures r == ApplyAll(s, js)
  {
    var snapshot := s;
    for k := 0 to |js|
      invariant ApplyAll(s, js) == ApplyAll(snapshot, js[k..])
    {
      assert js[k..][0] == js[k] && js[k..][1..] == js[k + 1..];
      if js[k].at > snapshot.deadlineAt { continue; }
      var applied := ApplyOne(snapshot, js[k]);
      if applied.Err? { return Err; }
      snapshot := applied.value;
    }
    r := Ok(snapshot);
  }

  // ---------------------------------------------------------------- one observation, predicate by predicate

  /** What an observation makes of its own predicate, seen locally. */
  function Touched(p: Predicate, j: Joined, deadline: int): Result<Predicate> {
    match j.seen
    case Answer(value, origin, status) =>
      Annotated(p, if value then True else False, j.at, origin, Some(status), None,
                if value then None else Some(ClampDue(j.at, j.jitter(FALSE_REPOLL_SECONDS), deadline)), 0)
    case Malformed(origin, status) =>
      (match Annotated(p, DependencyUnavailable, j.at, origin, Some(status), None, None, 0)
       case Err => Err
       case Ok(q) => Ok(q.(terminalInvalid := true)))
    case Operational(category, origin, status, _) =>
      var failures := Min(p.failureCount + 1, U32_MAX);
      Annotated(p, DependencyUnavailable, j.at, origin, status, Some(category),
                Some(ClampDue(j.at, OperationalDelay(j, failures), deadline)), failures)
  }

  /** A predicate the worker may still ask about. */
  predicate Open(p: Predicate) { p.firstTrue.None? && !p.terminalInvalid }

  /** Whether an observation of an open predicate is recorded, decided from that predicate alone. */
  predicate Recordable(p: Predicate, j: Joined, acceptedAt: int, deadline: int) {
    && acceptedAt <= j.at <= deadline
    && (p.latest.Some? ==> p.latest.value.at <= j.at)
    && !Blank(j.seen.origin)
    && (j.seen.Operational? ==> p.failureTotal < U32_MAX && (p.firstFailureAt.Some? ==> p.firstFailureAt.value <= j.at))
  }

  lemma TouchedOk(p: Predicate, j: Joined, acceptedAt: int, deadline: int)
    requires PredicateOk(p, acceptedAt, deadline) && Open(p)
    requires acceptedAt <= j.at <= deadline && (p.latest.Some? ==> p.latest.value.at <= j.at)
    ensures Recordable(p, j, acceptedAt, deadline) <==>
            Touched(p, j, deadline).Ok? && PredicateOk(Touched(p, j, deadline).value, acceptedAt, deadline)
    ensures Touched(p, j, deadline).Ok? ==> Touched(p, j, deadline).value.id == p.id
  {}

  lemma ReplacedValid(s: Snapshot, i: nat, q: Predicate)
    requires Valid(s) && s.root == Pending && i < |s.predicates| && q.id == s.predicates[i].id
    ensures Valid(s.(predicates := s.predicates[i := q])) <==> PredicateOk(q, s.acceptedAt, s.deadlineAt)
  {
    var s' := s.(predicates := s.predicates[i := q]);
    assert s'.predicates[i] == q;
  }

  /** The bare observation `Record` writes first never fails validation on its own. */
  lemma RecordIsLocal(s: Snapshot, i: nat, outcome: Outcome, at: int)
    requires Valid(s) && s.root == Pending && i < |s.predicates| && Open(s.predicates[i])
    ensures var p := s.predicates[i];
      Record(s, i, outcome, at).Ok? <==>
          s.acceptedAt <= at <= s.deadlineAt && (p.latest.Some? ==> p.latest.value.at <= at)
    ensures Record(s, i, outcome, at).Ok? ==>
      var o := Observation(outcome, at, None, None);
      var q := s.predicates[i].(latest := Some(o), firstTrue := if outcome == True then Some(o) else None);
      Record(s, i, outcome, at).value == s.(predicates := s.predicates[i := q])
  {
    var p := s.predicates[i];
    if s.acceptedAt <= at <= s.deadlineAt && (p.latest.Some? ==> p.latest.value.at <= at) {
      var o := Observation(outcome, at, None, None);
      ReplacedValid(s, i, p.(latest := Some(o), firstTrue := if outcome == True then Some(o) else None));
    }
  }

  lemma RecordNexusIsLocal(s: Snapshot, i: nat, outcome: Outcome, at: int, origin: string, status: Option<nat>,
                           category: Option<Category>, nextDue: Option<int>, failures: U32)
    requires Valid(s) && s.root == Pending && i < |s.predicates| && Open(s.predicates[i])
    ensures var p := s.predicates[i];
      var q := Annotated(p, outcome, at, origin, status, category, nextDue, failures);
      var timely := s.acceptedAt <= at <= s.deadlineAt && (p.latest.Some? ==> p.latest.value.at <= at);
      RecordNexus(s, i, outcome, at, origin, status, category, nextDue, failures)
      == if timely && q.Ok? && PredicateOk(q.value, s.acceptedAt, s.deadlineAt)
         then Ok(s.(predicates := s.predicates[i := q.value])) else Err
  {
    RecordIsLocal(s, i, outcome, at);
    var r := Record(s, i, outcome, at);
    if r.Ok? {
      var q := Annotated(s.predicates[i], outcome, at, origin, status, category, nextDue, failures);
      assert Annotated(r.value.predicates[i], outcome, at, origin, status, category, nextDue, failures) == q;
      if q.Ok? {
        assert r.value.predicates[i := q.value] == s.predicates[i := q.value];
        ReplacedValid(s, i, q.value);
      }
    }
  }

  /** An observation touches its own predicate and nothing else, and whether it is accepted
      depends on that predicate alone: the whole-snapshot validations on the way never matter. */
  lemma ApplyOneIsLocal(s: Snapshot, j: Joined)
    requires Valid(s) && s.root == Pending && j.index < |s.predicates| && Open(s.predicates[j.index])
    ensures var p := s.predicates[j.index];
      if Recordable(p, j, s.acceptedAt, s.deadlineAt)
      then && Touched(p, j, s.deadlineAt).Ok?
           && ApplyOne(s, j) == Ok(s.(predicates := s.predicates[j.index := Touched(p, j, s.deadlineAt).value]))
           && Valid(ApplyOne(s, j).value)
      else ApplyOne(s, j) == Err
  {
    var i, p := j.index, s.predicates[j.index];
    match j.seen
    case Answer(value, origin, status) =>
      var due := if value then None else Some(ClampDue(j.at, j.jitter(FALSE_REPOLL_SECONDS), s.deadlineAt));
      RecordNexusIsLocal(s, i, if value then True else False, j.at, origin, Some(status), None, due, 0);
      FinishLocal(s, j);
    case Malformed(origin, status) =>
      TerminalizeIsLocal(s, j);
      FinishLocal(s, j);
    case Operational(category, origin, status, _) =>
      var failures := Min(p.failureCount + 1, U32_MAX);
      RecordNexusIsLocal(s, i, DependencyUnavailable, j.at, origin, status, Some(category),
                         Some(ClampDue(j.at, OperationalDelay(j, failures), s.deadlineAt)), failures);
      FinishLocal(s, j);
  }

  lemma TerminalizeIsLocal(s: Snapshot, j: Joined)
    requires Valid(s) && s.root == Pending && j.index < |s.predicates| && Open(s.predicates[j.index])
        && j.seen.Malformed?
    ensures var p := s.predicates[j.index];
      var q := Touched(p, j, s.deadlineAt);
      var timely := s.acceptedAt <= j.at <= s.deadlineAt && (p.latest.Some? ==> p.latest.value.at <= j.at);
      ApplyOne(s, j) == if timely && q.Ok? && PredicateOk(q.value, s.acceptedAt, s.deadlineAt)
                        then Ok(s.(predicates := s.predicates[j.index := q.value])) else Err
  {
    var i, p := j.index, s.predicates[j.index];
    RecordNexusIsLocal(s, i, DependencyUnavailable, j.at, j.seen.origin, Some(j.seen.status), None, None, 0);
    var r := RecordNexus(s, i, DependencyUnavailable, j.at, j.seen.origin, Some(j.seen.status), None, None, 0);
    var q := Touched(p, j, s.deadlineAt);
    if r.Ok? {
      assert r.value.predicates[i := q.value] == s.predicates[i := q.value];
      ReplacedValid(s, i, q.value);
    }
  }

  lemma FinishLocal(s: Snapshot, j: Joined)
    requires Valid(s) && s.root == Pending && j.index < |s.predicates| && Open(s.predicates[j.index])
    requires var p := s.predicates[j.index];
      var q := Touched(p, j, s.deadlineAt);
      var timely := s.acceptedAt <= j.at <= s.deadlineAt && (p.latest.Some? ==> p.latest.value.at <= j.at);
      ApplyOne(s, j) == if timely && q.Ok? && PredicateOk(q.value, s.acceptedAt, s.deadlineAt)
                        then Ok(s.(predicates := s.predicates[j.index := q.value])) else Err
    ensures var p := s.predicates[j.index];
      if Recordable(p, j, s.acceptedAt, s.deadlineAt)
      then && Touched(p, j, s.deadlineAt).Ok?
           && ApplyOne(s, j) == Ok(s.(predicates := s.predicates[j.index := Touched(p, j, s.deadlineAt).value]))
           && Valid(ApplyOne(s, j).value)
      else ApplyOne(s, j) == Err
  {
    var p := s.predicates[j.index];
    if s.acceptedAt <= j.at <= s.deadlineAt && (p.latest.Some? ==> p.latest.value.at <= j.at) {
      TouchedOk(p, j, s.acceptedAt, s.deadlineAt);
      if Recordable(p, j, s.acceptedAt, s.deadlineAt) {
        ReplacedValid(s, j.index, Touched(p, j, s.deadlineAt).value);
      }
    }
  }
}
