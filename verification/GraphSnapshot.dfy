/** The durable state of one graph verification task: `GraphTaskSnapshotV1` and its predicates
    (`models/graph0conf.rs`), its validity, its observation recording and its reducer
    (`graph0conf_reducer.rs`). Instants are nanoseconds. The admission binding (creator, reader,
    bundle, lock) is constant here and not modelled. */
module GraphSnapshot {
  import opened Common

  datatype Result<+T> = Ok(value: T) | Err

  datatype Outcome = True | False | DependencyUnavailable
  datatype Category = Redirect | RateLimited | NonSuccess | Timeout | Transport

  datatype Observation = Observation(outcome: Outcome, at: int, origin: Option<string>, httpStatus: Option<nat>)

  datatype Predicate = Predicate(
    id: string,
    latest: Option<Observation>,
    firstTrue: Option<Observation>,
    nextDue: Option<int>,
    failureCount: U32,
    failureTotal: U32,
    firstFailureAt: Option<int>,
    lastFailureAt: Option<int>,
    lastCategory: Option<Category>,
    lastHttpStatus: Option<nat>,
    terminalInvalid: bool)

  datatype Operator = And | Or
  datatype Verdict = NotObserved | Unavailable
  datatype Root = Pending | Satisfied | Expired(verdict: Verdict) | FailedInvalidResponse

  datatype Snapshot = Snapshot(acceptedAt: int, deadlineAt: int, operator: Option<Operator>,
                               predicates: seq<Predicate>, root: Root)

  // ---------------------------------------------------------------- validity

  predicate Blank(s: string) { forall c :: c in s ==> c in {' ', '\t', '\n', '\r'} }

  predicate ObservationOk(o: Observation, acceptedAt: int, deadlineAt: int) {
    && acceptedAt <= o.at <= deadlineAt
    && (o.origin.Some? ==> !Blank(o.origin.value))
    && (o.httpStatus.Some? ==> o.origin.Some?)
  }

  predicate FailuresOk(p: Predicate, acceptedAt: int, deadlineAt: int) {
    if p.failureTotal == 0 then
      && p.failureCount == 0 && p.firstFailureAt.None? && p.lastFailureAt.None?
      && p.lastCategory.None? && p.lastHttpStatus.None?
    else
      && p.firstFailureAt.Some? && p.lastFailureAt.Some? && p.lastCategory.Some?
      && p.failureCount <= p.failureTotal
      && acceptedAt <= p.firstFailureAt.value <= p.lastFailureAt.value <= deadlineAt
  }

  predicate InvalidEvidenceOk(p: Predicate) {
    && p.latest.Some? && p.latest.value.outcome == DependencyUnavailable
    && p.latest.value.origin.Some? && !Blank(p.latest.value.origin.value) && p.latest.value.httpStatus.Some?
    && p.firstTrue.None? && p.nextDue.None? && p.failureCount == 0
  }

  predicate StickyOk(p: Predicate) {
    && (p.firstTrue.Some? ==> p.firstTrue.value.outcome == True)
    && (p.latest.Some? && p.latest.value.outcome == True ==> p.firstTrue.Some?)
    && (p.firstTrue.Some? ==>
          && p.latest.Some? && p.firstTrue.value.at <= p.latest.value.at
          && (p.firstTrue.value.at == p.latest.value.at ==> p.latest.value.outcome == True))
  }

  /** `GraphPredicateState::validate`. */
  predicate PredicateOk(p: Predicate, acceptedAt: int, deadlineAt: int) {
    && (p.latest.Some? ==> ObservationOk(p.latest.value, acceptedAt, deadlineAt))
    && (p.firstTrue.Some? ==> ObservationOk(p.firstTrue.value, acceptedAt, deadlineAt))
    && FailuresOk(p, acceptedAt, deadlineAt)
    && (p.terminalInvalid ==> InvalidEvidenceOk(p))
    && StickyOk(p)
    && (p.nextDue.Some? ==> p.nextDue.value <= deadlineAt)
  }

  predicate ShapeOk(s: Snapshot) {
    && 1 <= |s.predicates| <= 8
    && (|s.predicates| == 1 <==> s.operator.None?)
    && forall i, j :: 0 <= i < j < |s.predicates| ==> s.predicates[i].id != s.predicates[j].id
  }

  predicate PredicatesOk(s: Snapshot) {
    forall i :: 0 <= i < |s.predicates| ==> PredicateOk(s.predicates[i], s.acceptedAt, s.deadlineAt)
  }

  /** `GraphTaskSnapshotV1::validate`: a terminal root must be the one the observations imply. */
  predicate Valid(s: Snapshot) {
    && WindowOk(s.acceptedAt, s.deadlineAt) && ShapeOk(s) && PredicatesOk(s)
    && (s.root != Pending ==> s.root == TerminalRoot(s))
  }

  predicate ObservedBy(p: Predicate, now: int) {
    (p.latest.Some? ==> p.latest.value.at <= now) && (p.firstTrue.Some? ==> p.firstTrue.value.at <= now)
  }

  /** `validate_observations_not_after`. */
  predicate NotAfter(s: Snapshot, now: int) {
    forall i :: 0 <= i < |s.predicates| ==> ObservedBy(s.predicates[i], now)
  }

  // ---------------------------------------------------------------- truth tables

  datatype Truth = Yes | No | Down | Unknown | Bad

  /** A predicate's value once nothing more can be observed. */
  function TerminalTruth(p: Predicate): Truth {
    if p.firstTrue.Some? then Yes
    else if p.terminalInvalid then Bad
    else if p.latest.None? then No
    else match p.latest.value.outcome
         case True => Yes
         case DependencyUnavailable => Down
         case False => No
  }

  function TerminalValues(s: Snapshot): (v: seq<Truth>)
    ensures |v| == |s.predicates|
  {
    seq(|s.predicates|, i requires 0 <= i < |s.predicates| => TerminalTruth(s.predicates[i]))
  }

  function TerminalCombine(op: Option<Operator>, v: seq<Truth>): Truth
    requires |v| >= 1
  {
    match op
    case None => v[0]
    case Some(And) => if No in v then No else if Bad in v then Bad else if Down in v then Down else Yes
    case Some(Or) => if Yes in v then Yes else if Bad in v then Bad else if Down in v then Down else No
  }

  function RootOfTerminal(t: Truth): Root {
    match t
    case Yes => Satisfied
    case No => Expired(NotObserved)
    case Down => Expired(Unavailable)
    case Bad => FailedInvalidResponse
    case Unknown => Pending
  }

  /** `terminal_root_from_observations`, the table the snapshot validates itself with. */
  function TerminalRoot(s: Snapshot): Root
    requires |s.predicates| >= 1
  {
    RootOfTerminal(TerminalCombine(s.operator, TerminalValues(s)))
  }

  /** A predicate's value at a given moment: before the deadline nothing negative is final. */
  function TruthAt(p: Predicate, deadlineReached: bool): Truth {
    if p.firstTrue.Some? then Yes
    else if p.terminalInvalid then Bad
    else match p.latest
         case Some(o) =>
           (match o.outcome
            case True => Yes
            case False => if deadlineReached then No else Unknown
            case DependencyUnavailable => if deadlineReached then Down else Unknown)
         case None => if deadlineReached then No else Unknown
  }

  function ValuesAt(s: Snapshot, deadlineReached: bool): (v: seq<Truth>)
    ensures |v| == |s.predicates|
  {
    seq(|s.predicates|, i requires 0 <= i < |s.predicates| => TruthAt(s.predicates[i], deadlineReached))
  }

  function Combine(op: Option<Operator>, v: seq<Truth>, deadlineReached: bool): Truth
    requires |v| >= 1
  {
    match op
    case None => v[0]
    case Some(And) =>
      if No in v then No else if Unknown in v then Unknown
      else if Bad in v then Bad else if Down in v then Down else Yes
    case Some(Or) =>
      if Yes in v then Yes else if Unknown in v then Unknown
      else if Bad in v then Bad else if Down in v && deadlineReached then Down else No
  }

  function NextRoot(t: Truth, deadlineReached: bool): Root {
    match t
    case Yes => Satisfied
    case Bad => FailedInvalidResponse
    case No => if deadlineReached then Expired(NotObserved) else Pending
    case Down => if deadlineReached then Expired(Unavailable) else Pending
    case Unknown => Pending
  }

  /** `reduce_graph_snapshot`. */
  function Reduce(s: Snapshot, now: int): Result<Snapshot> {
    if !Valid(s) || !NotAfter(s, now) then Err
    else if s.root != Pending then Ok(s)
    else
      var reached := now >= s.deadlineAt;
      var next := s.(root := NextRoot(Combine(s.operator, ValuesAt(s, reached), reached), reached));
      if Valid(next) then Ok(next) else Err
  }

  // ---------------------------------------------------------------- the reducer decides exactly when it is certain

  /** Every way the undecided predicates could still turn out. */
  ghost predicate Completion(v: seq<Truth>, w: seq<Truth>) {
    && |w| == |v| && Unknown !in w
    && forall i :: 0 <= i < |v| && v[i] != Unknown ==> w[i] == v[i]
  }

  lemma ValuesBeforeDeadline(s: Snapshot)
    requires PredicatesOk(s)
    ensures No !in ValuesAt(s, false) && Down !in ValuesAt(s, false)
  {}

  lemma ValuesAtDeadline(s: Snapshot)
    requires PredicatesOk(s)
    ensures ValuesAt(s, true) == TerminalValues(s) && Unknown !in ValuesAt(s, true)
  {}

  /** At the deadline the reducer and the snapshot's own table, written separately, agree. */
  lemma TablesAgree(op: Option<Operator>, v: seq<Truth>)
    requires |v| >= 1 && Unknown !in v
    ensures NextRoot(Combine(op, v, true), true) == RootOfTerminal(TerminalCombine(op, v))
    ensures NextRoot(Combine(op, v, true), true) != Pending
  {}

  /** Before the deadline a decided value is what every completion gives. */
  lemma DecidedIsCertain(op: Option<Operator>, v: seq<Truth>, w: seq<Truth>)
    requires |v| >= 1 && No !in v && Down !in v && Completion(v, w)
    requires op.None? ==> |v| == 1
    requires NextRoot(Combine(op, v, false), false) != Pending
    ensures RootOfTerminal(TerminalCombine(op, w)) == NextRoot(Combine(op, v, false), false)
  {
    if Unknown !in v {
      assert w == v;
    } else if op == Some(Or) && Yes in v {
      var i :| 0 <= i < |v| && v[i] == Yes;
      assert w[i] == Yes;
    }
  }

  function Fill(v: seq<Truth>, t: Truth): (w: seq<Truth>)
    ensures |w| == |v|
  {
    seq(|v|, i requires 0 <= i < |v| => if v[i] == Unknown then t else v[i])
  }

  lemma UndecidedHasUnknown(op: Option<Operator>, v: seq<Truth>)
    requires |v| >= 1 && No !in v && Down !in v
    requires NextRoot(Combine(op, v, false), false) == Pending
    ensures Unknown in v
  {
    var head := v[0];
    assert head in v;
    assert head == Yes || head == Bad || head == Unknown;
    match op
    case None =>
    case Some(And) =>
    case Some(Or) =>
  }

  /** ... and an undecided one is genuinely open: two completions end differently. */
  lemma UndecidedIsOpen(op: Option<Operator>, v: seq<Truth>)
    requires |v| >= 1 && No !in v && Down !in v
    requires op.None? ==> |v| == 1
    requires NextRoot(Combine(op, v, false), false) == Pending
    ensures Completion(v, Fill(v, Yes)) && Completion(v, Fill(v, No))
    ensures RootOfTerminal(TerminalCombine(op, Fill(v, Yes))) != RootOfTerminal(TerminalCombine(op, Fill(v, No)))
  {
    UndecidedHasUnknown(op, v);
    var i :| 0 <= i < |v| && v[i] == Unknown;
    assert Fill(v, Yes)[i] == Yes && Fill(v, No)[i] == No;
    assert No !in Fill(v, Yes);
    if op == Some(Or) {
      assert Yes !in Fill(v, No);
    }
  }

  /** The reducer never fails on a valid snapshot observed by `now`, and decides with certainty:
      at the deadline it gives the terminal root the observations imply; before it, it ends the
      task if and only if every way the open predicates can turn out ends it the same way. */
  lemma ReducerDecidesExactly(s: Snapshot, now: int)
    requires Valid(s) && NotAfter(s, now) && s.root == Pending
    ensures Reduce(s, now).Ok?
    ensures now >= s.deadlineAt ==> Reduce(s, now).value.root == TerminalRoot(s) != Pending
    ensures now < s.deadlineAt ==>
      var root := Reduce(s, now).value.root;
      && (root != Pending ==>
            forall w :: Completion(ValuesAt(s, false), w) ==> RootOfTerminal(TerminalCombine(s.operator, w)) == root)
      && (root == Pending ==>
            exists w, w' :: && Completion(ValuesAt(s, false), w) && Completion(ValuesAt(s, false), w')
                            && RootOfTerminal(TerminalCombine(s.operator, w))
                               != RootOfTerminal(TerminalCombine(s.operator, w')))
  {
    if now >= s.deadlineAt {
      ValuesAtDeadline(s);
      TablesAgree(s.operator, ValuesAt(s, true));
    } else {
      var v := ValuesAt(s, false);
      ValuesBeforeDeadline(s);
      if NextRoot(Combine(s.operator, v, false), false) == Pending {
        UndecidedIsOpen(s.operator, v);
      } else {
        forall w | Completion(v, w)
          ensures RootOfTerminal(TerminalCombine(s.operator, w)) == NextRoot(Combine(s.operator, v, false), false)
        {
          DecidedIsCertain(s.operator, v, w);
        }
        TerminalValuesComplete(s);
        DecidedIsCertain(s.operator, v, TerminalValues(s));
      }
    }
  }

  lemma TerminalValuesComplete(s: Snapshot)
    requires PredicatesOk(s)
    ensures Completion(ValuesAt(s, false), TerminalValues(s))
  {}

  lemma YesMeansTrue(op: Option<Operator>, v: seq<Truth>, reached: bool)
    requires |v| >= 1 && (op.None? ==> |v| == 1)
    ensures NextRoot(Combine(op, v, reached), reached) == Satisfied
       <==> if op == Some(Or) then exists i :: 0 <= i < |v| && v[i] == Yes else forall i :: 0 <= i < |v| ==> v[i] == Yes
  {
    if op == Some(And) && exists i :: 0 <= i < |v| && v[i] != Yes {
      var i :| 0 <= i < |v| && v[i] != Yes;
      assert v[i] in v;
    }
  }

  lemma ReducedRoot(s: Snapshot, now: int)
    requires Valid(s) && NotAfter(s, now) && s.root == Pending
    ensures Reduce(s, now).Ok?
    ensures var reached := now >= s.deadlineAt;
      Reduce(s, now).value.root == NextRoot(Combine(s.operator, ValuesAt(s, reached), reached), reached)
  {
    ReducerDecidesExactly(s, now);
  }

  /** Satisfaction in plain logic: all predicates were seen true under AND, some under OR. */
  lemma SatisfiedMeansTrue(s: Snapshot, now: int)
    requires Valid(s) && NotAfter(s, now) && s.root == Pending
    ensures Reduce(s, now).Ok?
    ensures Reduce(s, now).value.root == Satisfied <==>
      if s.operator == Some(Or) then exists i :: 0 <= i < |s.predicates| && s.predicates[i].firstTrue.Some?
      else forall i :: 0 <= i < |s.predicates| ==> s.predicates[i].firstTrue.Some?
  {
    ReducedRoot(s, now);
    var v := ValuesAt(s, now >= s.deadlineAt);
    YesMeansTrue(s.operator, v, now >= s.deadlineAt);
    forall i | 0 <= i < |v| ensures v[i] == Yes <==> s.predicates[i].firstTrue.Some? {
      assert PredicateOk(s.predicates[i], s.acceptedAt, s.deadlineAt);
    }
  }
}
