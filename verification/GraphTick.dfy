/** One tick of the graph worker on a claimed pending task: dispatch the due predicates, join
    their observations in any order, reduce, then persist or reschedule
    (`run_once_with_shutdown`, `persist_terminal_or_pending`, `next_due` in `graph_worker.rs`). */
module GraphTick {
  import opened Common
  import opened GraphSnapshot
  import opened GraphObservations

  // ---------------------------------------------------------------- joining in any order

  predicate DistinctIndices(js: seq<Joined>) {
    forall k, l :: 0 <= k < l < |js| ==> js[k].index != js[l].index
  }

  /** Checks the worker can have in flight: one per open predicate. */
  predicate InFlight(s: Snapshot, js: seq<Joined>) {
    && DistinctIndices(js)
    && forall k :: 0 <= k < |js| ==> js[k].index < |s.predicates| && Open(s.predicates[js[k].index])
  }

  predicate Timely(s: Snapshot, j: Joined) { j.at <= s.deadlineAt }

  ghost predicate AllRecordable(s: Snapshot, js: seq<Joined>)
    requires InFlight(s, js)
  {
    forall k :: 0 <= k < |js| && Timely(s, js[k]) ==>
        Recordable(s.predicates[js[k].index], js[k], s.acceptedAt, s.deadlineAt)
  }

  /** `r` is `s` with each timely observation recorded in its own predicate: no order mentioned. */
  ghost predicate Merges(s: Snapshot, js: seq<Joined>, r: Snapshot)
    requires InFlight(s, js)
  {
    && r == s.(predicates := r.predicates) && |r.predicates| == |s.predicates|
    && (forall k :: 0 <= k < |js| && Timely(s, js[k]) ==>
          Touched(s.predicates[js[k].index], js[k], s.deadlineAt) == Ok(r.predicates[js[k].index]))
    && (forall i :: 0 <= i < |s.predicates| && (forall k :: 0 <= k < |js| && Timely(s, js[k]) ==> js[k].index != i) ==>
          r.predicates[i] == s.predicates[i])
  }

  lemma {:induction false} JoinIsPointwise(s: Snapshot, js: seq<Joined>)
    requires Valid(s) && s.root == Pending && InFlight(s, js)
    ensures ApplyAll(s, js).Ok? <==> AllRecordable(s, js)
    ensures ApplyAll(s, js).Ok? ==> Valid(ApplyAll(s, js).value) && Merges(s, js, ApplyAll(s, js).value)
    decreases |js|
  {
    if js != [] {
      var j, rest := js[0], js[1..];
      if !Timely(s, j) {
        JoinIsPointwise(s, rest);
        LateIsSkipped(s, js);
        if ApplyAll(s, rest).Ok? { MergesSkip(s, js, ApplyAll(s, rest).value); }
      } else {
        ApplyOneIsLocal(s, j);
        if Recordable(s.predicates[j.index], j, s.acceptedAt, s.deadlineAt) {
          JoinStep(s, js);
        }
      }
    }
  }

  lemma LateIsSkipped(s: Snapshot, js: seq<Joined>)
    requires InFlight(s, js) && js != [] && !Timely(s, js[0])
    ensures InFlight(s, js[1..]) && (AllRecordable(s, js) <==> AllRecordable(s, js[1..]))
  {
    assert forall k :: 0 <= k < |js[1..]| ==> js[1..][k] == js[k + 1];
    assert forall k :: 1 <= k < |js| ==> js[k] == js[1..][k - 1];
  }

  lemma MergesSkip(s: Snapshot, js: seq<Joined>, r: Snapshot)
    requires InFlight(s, js) && js != [] && !Timely(s, js[0]) && InFlight(s, js[1..]) && Merges(s, js[1..], r)
    ensures Merges(s, js, r)
  {
    assert forall k :: 0 <= k < |js[1..]| ==> js[1..][k] == js[k + 1];
    assert forall k :: 1 <= k < |js| ==> js[k] == js[1..][k - 1];
  }

  lemma JoinStep(s: Snapshot, js: seq<Joined>)
    requires Valid(s) && s.root == Pending && InFlight(s, js) && js != [] && Timely(s, js[0])
    requires Recordable(s.predicates[js[0].index], js[0], s.acceptedAt, s.deadlineAt)
    ensures ApplyAll(s, js).Ok? <==> AllRecordable(s, js)
    ensures ApplyAll(s, js).Ok? ==> Valid(ApplyAll(s, js).value) && Merges(s, js, ApplyAll(s, js).value)
    decreases |js|, 0
  {
    var j, rest := js[0], js[1..];
    ApplyOneIsLocal(s, j);
    var s' := ApplyOne(s, j).value;
    assert forall k :: 0 <= k < |rest| ==> rest[k] == js[k + 1];
    assert forall k :: 1 <= k < |js| ==> js[k] == rest[k - 1];
    assert InFlight(s', rest);
    JoinIsPointwise(s', rest);
    assert AllRecordable(s', rest) <==> AllRecordable(s, js);
    if ApplyAll(s', rest).Ok? {
      MergesStep(s, s', js, ApplyAll(s', rest).value);
    }
  }

  lemma MergesStep(s: Snapshot, s': Snapshot, js: seq<Joined>, r: Snapshot)
    requires InFlight(s, js) && js != [] && Timely(s, js[0])
    requires Touched(s.predicates[js[0].index], js[0], s.deadlineAt).Ok?
    requires var touched := Touched(s.predicates[js[0].index], js[0], s.deadlineAt).value;
             s' == s.(predicates := s.predicates[js[0].index := touched])
    requires InFlight(s', js[1..]) && Merges(s', js[1..], r)
    ensures Merges(s, js, r)
  {
    var rest := js[1..];
    assert forall k :: 1 <= k < |js| ==> js[k] == rest[k - 1];
    assert forall k :: 0 <= k < |rest| ==> rest[k] == js[k + 1];
    assert r.predicates[js[0].index] == s'.predicates[js[0].index];
  }

  /** Observations commute: whatever order the concurrent checks join in, the tick ends with the
      same snapshot, or fails in every order. */
  lemma JoinOrderIrrelevant(s: Snapshot, js: seq<Joined>, js': seq<Joined>)
    requires Valid(s) && s.root == Pending && InFlight(s, js) && InFlight(s, js')
    requires forall j :: j in js <==> j in js'
    ensures ApplyAll(s, js) == ApplyAll(s, js')
  {
    JoinIsPointwise(s, js);
    JoinIsPointwise(s, js');
    assert AllRecordable(s, js) <==> AllRecordable(s, js') by {
      forall k | 0 <= k < |js| ensures js[k] in js' {}
      forall k | 0 <= k < |js'| ensures js'[k] in js {}
    }
    if AllRecordable(s, js) {
      MergesUnique(s, js, js', ApplyAll(s, js).value, ApplyAll(s, js').value);
    }
  }

  lemma MergesUnique(s: Snapshot, js: seq<Joined>, js': seq<Joined>, r: Snapshot, r': Snapshot)
    requires InFlight(s, js) && InFlight(s, js') && forall j :: j in js <==> j in js'
    requires Merges(s, js, r) && Merges(s, js', r')
    ensures r == r'
  {
    forall i | 0 <= i < |s.predicates| ensures r.predicates[i] == r'.predicates[i] {
      if k :| 0 <= k < |js| && Timely(s, js[k]) && js[k].index == i {
        assert js[k] in js';
        var l :| 0 <= l < |js'| && js'[l] == js[k];
      } else {
        forall l | 0 <= l < |js'| && Timely(s, js'[l]) ensures js'[l].index != i { assert js'[l] in js; }
      }
    }
    assert r.predicates == r'.predicates;
  }

  // ---------------------------------------------------------------- dispatch and scheduling

  predicate Due(p: Predicate, now: int) { Open(p) && (p.nextDue.Some? ==> p.nextDue.value <= now) }

  /** `due`: indices to ask about, in order, at most eight. */
  function DueIndices(s: Snapshot, now: int, from: nat): (r: seq<nat>)
    requires from <= |s.predicates|
    ensures forall i :: i in r <==> from <= i < |s.predicates| && Due(s.predicates[i], now)
    ensures forall k :: 0 <= k < |r| ==> from <= r[k]
    ensures forall k, l :: 0 <= k < l < |r| ==> r[k] < r[l]
    ensures |r| <= |s.predicates| - from
    decreases |s.predicates| - from
  {
    if from == |s.predicates| then []
    else (if Due(s.predicates[from], now) then [from] else []) + DueIndices(s, now, from + 1)
  }

  function MinDue(ps: seq<Predicate>): (r: Option<int>)
    ensures r.None? <==> forall i :: 0 <= i < |ps| ==> !(Open(ps[i]) && ps[i].nextDue.Some?)
    ensures r.Some? ==> exists i :: 0 <= i < |ps| && Open(ps[i]) && ps[i].nextDue == r
    ensures r.Some? ==> forall i :: 0 <= i < |ps| && Open(ps[i]) && ps[i].nextDue.Some? ==>
        r.value <= ps[i].nextDue.value
  {
    if ps == [] then None
    else
      var rest := MinDue(ps[1..]);
      assert forall i :: 1 <= i < |ps| ==> ps[i] == ps[1..][i - 1];
      if !(Open(ps[0]) && ps[0].nextDue.Some?) then
        assert rest.Some? ==>
          exists i :: 0 <= i < |ps[1..]| && Open(ps[1..][i]) && ps[1..][i].nextDue == rest && ps[1..][i] == ps[i + 1];
        rest
      else if rest.None? || ps[0].nextDue.value <= rest.value then ps[0].nextDue
      else
        assert
          exists i :: 0 <= i < |ps[1..]| && Open(ps[1..][i]) && ps[1..][i].nextDue == rest && ps[1..][i] == ps[i + 1];
        rest
  }

  /** `next_due`. */
  function NextDue(s: Snapshot, now: int): int {
    var earliest := MinDue(s.predicates);
    Min(Max(if earliest.Some? then earliest.value else s.deadlineAt, now + MILLI), s.deadlineAt)
  }

  // ---------------------------------------------------------------- the tick

  /** The clock readings and answers of one tick. `spawned` of the due checks were dispatched
      before the clock was seen past the deadline; `joined` is the order they came back in. */
  datatype TickIn = TickIn(dispatchNow: int, spawned: nat, joined: seq<Joined>, reducedAt: int)

  datatype TickOut = Persist(snapshot: Snapshot, now: int) | Retry(snapshot: Snapshot, now: int, due: int) | Failed

  function PersistOrPending(s: Snapshot, now: int): TickOut {
    if s.root != Pending then Persist(s, now) else Retry(s, now, NextDue(s, now))
  }

  function ReduceThenStore(s: Snapshot, now: int): TickOut {
    match Reduce(s, now)
    case Err => Failed
    case Ok(r) => PersistOrPending(r, now)
  }

  function Tick(s: Snapshot, t: TickIn): TickOut {
    if t.dispatchNow >= s.deadlineAt then ReduceThenStore(s, t.dispatchNow)
    else if DueIndices(s, t.dispatchNow, 0) == [] then Retry(s, t.dispatchNow, NextDue(s, t.dispatchNow))
    else match ApplyAll(s, t.joined)
         case Err => Failed
         case Ok(r) => ReduceThenStore(r, t.reducedAt)
  }

  /** What a failure history may look like: it starts no later than the latest observation. */
  predicate HistoryOk(p: Predicate) {
    p.firstFailureAt.Some? ==> p.latest.Some? && p.firstFailureAt.value <= p.latest.value.at
  }

  /** A snapshot as the repository hands it out at `now`. */
  ghost predicate Stored(s: Snapshot, now: int) {
    && Valid(s) && s.root == Pending && s.acceptedAt <= now && NotAfter(s, now)
    && forall i :: 0 <= i < |s.predicates| ==> HistoryOk(s.predicates[i])
  }

  /** Answers of a tick with a non-decreasing clock and usable origins; the checks are those of
      `spawned` due predicates. */
  ghost predicate Plausible(s: Snapshot, t: TickIn) {
    && t.dispatchNow <= t.reducedAt
    && DistinctIndices(t.joined)
    && (forall k :: 0 <= k < |t.joined| ==>
          && t.joined[k].index < |s.predicates| && t.joined[k].index in DueIndices(s, t.dispatchNow, 0)
          && t.dispatchNow <= t.joined[k].at <= t.reducedAt
          && !Blank(t.joined[k].seen.origin))
    && |t.joined| == Min(t.spawned, |DueIndices(s, t.dispatchNow, 0)|)
  }

  /** The answer is one more operational failure than the predicate can count. */
  predicate Overflowing(s: Snapshot, j: Joined)
    requires j.index < |s.predicates|
  {
    Timely(s, j) && j.seen.Operational? && s.predicates[j.index].failureTotal >= U32_MAX
  }

  ghost predicate Overflows(s: Snapshot, t: TickIn)
    requires Plausible(s, t)
  {
    exists k :: 0 <= k < |t.joined| && Overflowing(s, t.joined[k])
  }

  lemma PlausibleIsRecordable(s: Snapshot, t: TickIn)
    requires Stored(s, t.dispatchNow) && Plausible(s, t)
    ensures InFlight(s, t.joined) && (AllRecordable(s, t.joined) <==> !Overflows(s, t))
  {
    forall k | 0 <= k < |t.joined|
      ensures Open(s.predicates[t.joined[k].index])
      ensures Timely(s, t.joined[k]) && !Overflowing(s, t.joined[k]) <==>
              && Timely(s, t.joined[k])
              && Recordable(s.predicates[t.joined[k].index], t.joined[k], s.acceptedAt, s.deadlineAt)
    {
      var p := s.predicates[t.joined[k].index];
      assert Due(p, t.dispatchNow);
      assert ObservedBy(p, t.dispatchNow) && HistoryOk(p) && PredicateOk(p, s.acceptedAt, s.deadlineAt);
    }
  }

  /** Every tick keeps the task storable. */
  lemma JoinedIsStored(s: Snapshot, t: TickIn)
    requires Stored(s, t.dispatchNow) && Plausible(s, t) && !Overflows(s, t)
    ensures ApplyAll(s, t.joined).Ok? && Stored(ApplyAll(s, t.joined).value, t.reducedAt)
    ensures ApplyAll(s, t.joined).value.deadlineAt == s.deadlineAt
  {
    PlausibleIsRecordable(s, t);
    JoinIsPointwise(s, t.joined);
    var r := ApplyAll(s, t.joined).value;
    forall i | 0 <= i < |r.predicates| ensures ObservedBy(r.predicates[i], t.reducedAt) && HistoryOk(r.predicates[i]) {
      assert ObservedBy(s.predicates[i], t.dispatchNow) && HistoryOk(s.predicates[i]);
      if k :| 0 <= k < |t.joined| && Timely(s, t.joined[k]) && t.joined[k].index == i {
        TouchedKeepsHistory(s.predicates[i], t.joined[k], s.deadlineAt, t.reducedAt);
      }
    }
  }

  lemma TouchedKeepsHistory(p: Predicate, j: Joined, deadline: int, now: int)
    requires Touched(p, j, deadline).Ok? && HistoryOk(p) && ObservedBy(p, now) && j.at <= now
    requires p.latest.Some? ==> p.latest.value.at <= j.at
    ensures HistoryOk(Touched(p, j, deadline).value) && ObservedBy(Touched(p, j, deadline).value, now)
  {}

  lemma NextDueIsGood(s: Snapshot, now: int)
    requires now < s.deadlineAt
    ensures GoodRetry(now, NextDue(s, now), s.deadlineAt)
  {}

  lemma StoringOutcome(s: Snapshot, now: int)
    requires Stored(s, now)
    ensures !ReduceThenStore(s, now).Failed?
    ensures now >= s.deadlineAt ==> ReduceThenStore(s, now).Persist?
    ensures ReduceThenStore(s, now).Persist? ==>
      Valid(ReduceThenStore(s, now).snapshot) && ReduceThenStore(s, now).snapshot.root != Pending
    ensures ReduceThenStore(s, now).Retry? ==>
        now < s.deadlineAt && ReduceThenStore(s, now) == Retry(s, now, NextDue(s, now))
  {
    ReducerDecidesExactly(s, now);
    var r := Reduce(s, now).value;
    assert r == s.(root := r.root);
  }

  /** What a tick does with any stored task and any plausible answers: it fails exactly when it is
      told of a failure beyond the u32 limit; at or past the deadline it ends the task; whenever it
      reschedules, the clock is short of the deadline, the retry is a good one and the snapshot is
      again a storable pending one. */
  lemma TickOutcome(s: Snapshot, t: TickIn)
    requires Stored(s, t.dispatchNow) && Plausible(s, t)
    ensures Tick(s, t).Failed? <==> t.dispatchNow < s.deadlineAt && Overflows(s, t)
    ensures t.dispatchNow >= s.deadlineAt ==> Tick(s, t).Persist?
    ensures Tick(s, t).Persist? ==> Valid(Tick(s, t).snapshot) && Tick(s, t).snapshot.root != Pending
    ensures Tick(s, t).Retry? ==>
      var out := Tick(s, t);
      && Stored(out.snapshot, out.now) && out.snapshot.deadlineAt == s.deadlineAt
      && t.dispatchNow <= out.now && GoodRetry(out.now, out.due, s.deadlineAt)
  {
    if t.dispatchNow >= s.deadlineAt {
      StoringOutcome(s, t.dispatchNow);
    } else if DueIndices(s, t.dispatchNow, 0) == [] {
      NextDueIsGood(s, t.dispatchNow);
    } else {
      PlausibleIsRecordable(s, t);
      JoinIsPointwise(s, t.joined);
      if !Overflows(s, t) {
        JoinedIsStored(s, t);
        var r := ApplyAll(s, t.joined).value;
        StoringOutcome(r, t.reducedAt);
        if t.reducedAt < s.deadlineAt { NextDueIsGood(r, t.reducedAt); }
      }
    }
  }

  /** No predicate has counted more than `n` operational failures. */
  predicate FailuresAtMost(s: Snapshot, n: nat) {
    forall i :: 0 <= i < |s.predicates| ==> s.predicates[i].failureTotal <= n
  }

  lemma TouchedCounts(p: Predicate, j: Joined, deadline: int)
    requires Touched(p, j, deadline).Ok?
    ensures Touched(p, j, deadline).value.failureTotal <= p.failureTotal + 1
  {}

  lemma JoinedCounts(s: Snapshot, t: TickIn, n: nat)
    requires Stored(s, t.dispatchNow) && Plausible(s, t) && ApplyAll(s, t.joined).Ok? && FailuresAtMost(s, n)
    ensures FailuresAtMost(ApplyAll(s, t.joined).value, n + 1)
  {
    PlausibleIsRecordable(s, t);
    JoinIsPointwise(s, t.joined);
    var r := ApplyAll(s, t.joined).value;
    forall i | 0 <= i < |r.predicates| ensures r.predicates[i].failureTotal <= n + 1 {
      if k :| 0 <= k < |t.joined| && Timely(s, t.joined[k]) && t.joined[k].index == i {
        TouchedCounts(s.predicates[i], t.joined[k], s.deadlineAt);
      }
    }
  }

  /** A rescheduling tick adds at most one failure to each predicate's count. */
  lemma TickCounts(s: Snapshot, t: TickIn, n: nat)
    requires Stored(s, t.dispatchNow) && Plausible(s, t) && FailuresAtMost(s, n) && Tick(s, t).Retry?
    ensures FailuresAtMost(Tick(s, t).snapshot, n + 1)
  {
    TickOutcome(s, t);
    if t.dispatchNow < s.deadlineAt && DueIndices(s, t.dispatchNow, 0) != [] {
      JoinedCounts(s, t, n);
      JoinedIsStored(s, t);
      StoringOutcome(ApplyAll(s, t.joined).value, t.reducedAt);
    }
  }

  /** A predicate already true or terminally invalid is never asked about again, and a tick leaves
      it exactly as it was; so does an observation made after the deadline. */
  lemma SettledIsUntouched(s: Snapshot, t: TickIn, i: nat)
    requires Stored(s, t.dispatchNow) && Plausible(s, t) && i < |s.predicates|
    requires !Open(s.predicates[i]) || forall k :: 0 <= k < |t.joined| && t.joined[k].index == i ==>
        t.joined[k].at > s.deadlineAt
    ensures ApplyAll(s, t.joined).Ok? <==> !Overflows(s, t)
    ensures ApplyAll(s, t.joined).Ok? ==>
      && i < |ApplyAll(s, t.joined).value.predicates|
      && ApplyAll(s, t.joined).value.predicates[i] == s.predicates[i]
  {
    PlausibleIsRecordable(s, t);
    JoinIsPointwise(s, t.joined);
  }

  // ---------------------------------------------------------------- what the repository accepts

  predicate PredicateProgress(p: Predicate, q: Predicate) {
    && p.id == q.id
    && (p.terminalInvalid ==> q.terminalInvalid)
    && (p.firstTrue.Some? ==> q.firstTrue == p.firstTrue)
    && (p.latest.Some? ==> q.latest.Some? && p.latest.value.at <= q.latest.value.at
                           && (p.latest.value.at == q.latest.value.at ==> p.latest == q.latest))
    && (p.firstTrue.None? && q.firstTrue.Some? ==> q.firstTrue == q.latest)
  }

  /** `validate_progress_from`, checked by the repository before it replaces a snapshot. */
  predicate ProgressFrom(next: Snapshot, current: Snapshot) {
    && Valid(current) && Valid(next) && current.root == Pending
    && |current.predicates| == |next.predicates|
    && forall i :: 0 <= i < |current.predicates| ==> PredicateProgress(current.predicates[i], next.predicates[i])
  }

  /** What an answer is recorded as. */
  function ObservationOf(j: Joined): Observation {
    match j.seen
    case Answer(value, origin, status) => Observation(if value then True else False, j.at, Some(origin), Some(status))
    case Malformed(origin, status) => Observation(DependencyUnavailable, j.at, Some(origin), Some(status))
    case Operational(_, origin, status, _) => Observation(DependencyUnavailable, j.at, Some(origin), status)
  }

  /** An observation stamped like the stored one but saying something else. */
  predicate RewritesInstant(p: Predicate, j: Joined) {
    p.latest.Some? && p.latest.value.at == j.at && p.latest.value != ObservationOf(j)
  }

  lemma TouchedProgress(p: Predicate, j: Joined, deadline: int)
    requires Open(p) && Touched(p, j, deadline).Ok? && (p.latest.Some? ==> p.latest.value.at <= j.at)
    ensures PredicateProgress(p, Touched(p, j, deadline).value) <==> !RewritesInstant(p, j)
  {}

  /** The repository accepts what a tick observed if and only if no observation carries the exact
      instant of the one it replaces with different contents. */
  lemma ProgressAcceptedIff(s: Snapshot, t: TickIn)
    requires Stored(s, t.dispatchNow) && Plausible(s, t) && !Overflows(s, t)
    ensures ApplyAll(s, t.joined).Ok?
    ensures ProgressFrom(ApplyAll(s, t.joined).value, s) <==>
      forall k :: 0 <= k < |t.joined| && Timely(s, t.joined[k]) ==>
        !RewritesInstant(s.predicates[t.joined[k].index], t.joined[k])
  {
    PlausibleIsRecordable(s, t);
    JoinIsPointwise(s, t.joined);
    var r := ApplyAll(s, t.joined).value;
    forall k | 0 <= k < |t.joined| && Timely(s, t.joined[k])
      ensures PredicateProgress(s.predicates[t.joined[k].index], r.predicates[t.joined[k].index])
         <==> !RewritesInstant(s.predicates[t.joined[k].index], t.joined[k])
    {
      assert Recordable(s.predicates[t.joined[k].index], t.joined[k], s.acceptedAt, s.deadlineAt);
      TouchedProgress(s.predicates[t.joined[k].index], t.joined[k], s.deadlineAt);
    }
    if forall k :: 0 <= k < |t.joined| && Timely(s, t.joined[k]) ==>
         !RewritesInstant(s.predicates[t.joined[k].index], t.joined[k])
    {
      forall i | 0 <= i < |s.predicates| ensures PredicateProgress(s.predicates[i], r.predicates[i]) {
        if k :| 0 <= k < |t.joined| && Timely(s, t.joined[k]) && t.joined[k].index == i {
        }
      }
    }
  }

  /** The refusal is possible: a second answer within the same clock reading, with another value. */
  lemma SameInstantIsRefused()
    ensures exists s: Snapshot, t: TickIn :: Stored(s, t.dispatchNow) && Plausible(s, t) && ApplyAll(s, t.joined).Ok?
                           && !ProgressFrom(ApplyAll(s, t.joined).value, s)
  {
    WitnessPlausible();
    ProgressAcceptedIff(StoredAnswer(), SecondAnswer());
    var j := SecondAnswer().joined[0];
    assert RewritesInstant(StoredAnswer().predicates[j.index], j) && Timely(StoredAnswer(), j);
  }

  /** A task whose only predicate was seen false at time 0 ... */
  function StoredAnswer(): Snapshot {
    var seen := Observation(False, 0, Some("nexus"), Some(200));
    var p := Predicate("a", Some(seen), None, None, 0, 0, None, None, None, None, false);
    Snapshot(0, 60 * SECOND, None, [p], Pending)
  }

  /** ... and a tick that sees it true at the same time. */
  function SecondAnswer(): TickIn { TickIn(0, 1, [Joined(0, Answer(true, "nexus", 200), 0, (_: nat) => 0)], 0) }

  lemma WitnessPlausible()
    ensures Stored(StoredAnswer(), 0) && Plausible(StoredAnswer(), SecondAnswer())
    ensures !Overflows(StoredAnswer(), SecondAnswer())
  {
    var s := StoredAnswer();
    assert 'n' in "nexus" by { assert "nexus"[0] == 'n'; }
    assert DueIndices(s, 0, 0) == [0] by { assert Due(s.predicates[0], 0); }
  }

  /** Everything stored was observed before `now`. */
  predicate ObservedBefore(s: Snapshot, now: int) {
    forall i :: 0 <= i < |s.predicates| && s.predicates[i].latest.Some? ==> s.predicates[i].latest.value.at < now
  }

  lemma ReducedProgress(s: Snapshot, r: Snapshot, now: int)
    requires ProgressFrom(r, s) && Stored(r, now)
    ensures !ReduceThenStore(r, now).Failed? && ProgressFrom(ReduceThenStore(r, now).snapshot, s)
  {
    StoringOutcome(r, now);
    ReducerDecidesExactly(r, now);
  }

  /** A tick that starts after everything stored was observed writes nothing the repository
      would refuse. */
  lemma TickIsAccepted(s: Snapshot, t: TickIn)
    requires Stored(s, t.dispatchNow) && Plausible(s, t) && ObservedBefore(s, t.dispatchNow)
    ensures !Tick(s, t).Failed? ==> ProgressFrom(Tick(s, t).snapshot, s)
  {
    TickOutcome(s, t);
    if t.dispatchNow >= s.deadlineAt {
      ReducedProgress(s, s, t.dispatchNow);
    } else if DueIndices(s, t.dispatchNow, 0) != [] && !Overflows(s, t) {
      JoinedIsStored(s, t);
      ProgressAcceptedIff(s, t);
      ReducedProgress(s, ApplyAll(s, t.joined).value, t.reducedAt);
    }
  }
}
