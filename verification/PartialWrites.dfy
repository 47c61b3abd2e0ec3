/**
 Partial write outcomes: what a sink may report about the operations of one
 attempt, how a report is classified, and how batches lose operations to
 confirmed progress over any sequence of attempts, leases and lost replies.
 */
module PartialWrites {
  import opened Collections
  import opened Wrappers

  type OperationId = nat

  datatype Status = Completed | Retryable | Permanent | Unknown

  datatype Outcome = Complete | Partial(statuses: map<OperationId, Status>)

  datatype Failure = InvalidOutcome | PermanentlyRejected | UnknownOutcome | RequiresRetry

  datatype Verdict = AllWritten | Incomplete(done: set<OperationId>, failure: Failure)

  function Members(ids: seq<OperationId>): set<OperationId> {
    set id | id in ids
  }

  function Done(statuses: map<OperationId, Status>): set<OperationId> {
    set id | id in statuses && statuses[id] == Completed
  }

  function PartialFailure(statuses: map<OperationId, Status>, expected: nat): Failure {
    if exists id :: id in statuses && statuses[id] == Permanent then PermanentlyRejected
    else if |statuses| < expected || exists id :: id in statuses && statuses[id] == Unknown then UnknownOutcome
    else RequiresRetry
  }

  function Classify(outcome: Outcome, pending: seq<OperationId>): Result<Verdict, Failure> {
    match outcome
    case Complete => Ok(AllWritten)
    case Partial(statuses) =>
      if |statuses| > |pending| || exists id :: id in statuses && id !in pending then Err(InvalidOutcome)
      else if |Done(statuses)| == |pending| then Ok(AllWritten)
      else Ok(Incomplete(Done(statuses), PartialFailure(statuses, |pending|)))
  }

  // ----- Counting

  lemma {:induction false} MembersCount(ids: seq<OperationId>)
    ensures |Members(ids)| <= |ids|
    ensures |Members(ids)| == |ids| <==> Distinct(ids)
    decreases |ids|
  {
    if ids != [] {
      var n := |ids| - 1;
      var rest := ids[..n];
      MembersCount(rest);
      if ids[n] in rest {
        assert Members(ids) == Members(rest);
        var i :| 0 <= i < n && ids[i] == ids[n];
      } else {
        assert Members(ids) == Members(rest) + {ids[n]};
        assert Distinct(ids) <==> Distinct(rest);
      }
    }
  }

  lemma DoneWithin(statuses: map<OperationId, Status>, pending: seq<OperationId>)
    requires statuses.Keys <= Members(pending)
    ensures Done(statuses) <= Members(pending) && |Done(statuses)| <= |statuses| <= |Members(pending)| <= |pending|
  {
    SubsetCount(Done(statuses), statuses.Keys);
    SubsetCount(statuses.Keys, Members(pending));
    MembersCount(pending);
  }

  // ----- What a classification means

  /** A partial report is invalid iff it names an operation that was not dispatched. */
  lemma InvalidIff(statuses: map<OperationId, Status>, pending: seq<OperationId>)
    ensures Classify(Partial(statuses), pending).Err? <==> !(statuses.Keys <= Members(pending))
  {
    if statuses.Keys <= Members(pending) {
      DoneWithin(statuses, pending);
    }
  }

  ghost predicate AllCompleted(statuses: map<OperationId, Status>, pending: seq<OperationId>) {
    forall id :: id in pending ==> id in statuses && statuses[id] == Completed
  }

  /**
   A valid partial report counts as written iff every dispatched operation is
   reported completed, as long as they are distinct; a repeated one can never be.
   */
  lemma WrittenIff(statuses: map<OperationId, Status>, pending: seq<OperationId>)
    requires statuses.Keys <= Members(pending)
    ensures Classify(Partial(statuses), pending) == Ok(AllWritten) <==>
              Distinct(pending) && AllCompleted(statuses, pending)
  {
    DoneWithin(statuses, pending);
    MembersCount(pending);
    if |Done(statuses)| == |pending| {
      SubsetCount(Done(statuses), Members(pending));
      forall id | id in pending ensures id in statuses && statuses[id] == Completed {
        assert id in Members(pending);
      }
    }
    if Distinct(pending) && AllCompleted(statuses, pending) {
      assert Done(statuses) == Members(pending);
    }
  }

  /** Which failure an incomplete report carries, operation by operation. */
  lemma FailureIff(statuses: map<OperationId, Status>, pending: seq<OperationId>)
    requires statuses.Keys <= Members(pending) && Distinct(pending)
    requires Classify(Partial(statuses), pending) != Ok(AllWritten)
    ensures var f := PartialFailure(statuses, |pending|);
            && Classify(Partial(statuses), pending) == Ok(Incomplete(Done(statuses), f))
            && (f == PermanentlyRejected <==> exists id :: id in statuses && statuses[id] == Permanent)
            && (f == RequiresRetry <==> forall id :: id in pending ==>
                 id in statuses && (statuses[id] == Completed || statuses[id] == Retryable))
  {
    InvalidIff(statuses, pending);
    MembersCount(pending);
    DoneWithin(statuses, pending);
    if |statuses| == |pending| {
      SubsetCount(statuses.Keys, Members(pending));
      assert forall id :: id in pending ==> id in Members(pending);
    }
    if forall id :: id in pending ==> id in statuses && (statuses[id] == Completed || statuses[id] == Retryable) {
      assert statuses.Keys == Members(pending);
    }
  }

  // ----- Building reports

  ghost predicate Reported(statuses: map<OperationId, Status>, pending: seq<OperationId>, left: set<OperationId>) {
    && (forall id :: id in statuses <==> id in pending)
    && (forall id :: id in statuses ==> statuses[id] == if id in left then Retryable else Completed)
  }

  /** Reports all pending operations but `left` completed; fails iff one of them is foreign or repeated. */
  method CompleteExcept(pending: seq<OperationId>, left: seq<OperationId>) returns (r: Result<Outcome, Failure>)
    ensures r.Err? <==> !Distinct(left) || !(Members(left) <= Members(pending))
    ensures r.Err? ==> r.error == InvalidOutcome
    ensures r.Ok? ==> (r.value == Complete <==> left == [])
    ensures r.Ok? && left != [] ==> r.value.Partial? && Reported(r.value.statuses, pending, Members(left))
  {
    var leftSet: set<OperationId> := {};
    for i := 0 to |left|
      invariant leftSet == Members(left[..i]) && Distinct(left[..i]) && leftSet <= Members(pending)
    {
      if left[i] !in pending {
        assert left[i] in Members(left);
        return Err(InvalidOutcome);
      }
      if left[i] in leftSet {
        var j :| 0 <= j < i && left[..i][j] == left[i];
        return Err(InvalidOutcome);
      }
      leftSet := leftSet + {left[i]};
      assert left[..i + 1] == left[..i] + [left[i]];
    }
    assert left[..|left|] == left;
    assert left != [] ==> left[0] in leftSet;
    if leftSet == {} {
      return Ok(Complete);
    }
    var statuses: map<OperationId, Status> := map[];
    for i := 0 to |pending|
      invariant Reported(statuses, pending[..i], leftSet)
    {
      statuses := statuses[pending[i] := if pending[i] in leftSet then Retryable else Completed];
      assert pending[..i + 1] == pending[..i] + [pending[i]];
    }
    assert pending[..|pending|] == pending;
    r := Ok(Partial(statuses));
  }

  /** Accepts a report iff it names only pending operations. */
  function PartialReport(pending: seq<OperationId>, statuses: map<OperationId, Status>): (r: Result<Outcome, Failure>)
    ensures r.Ok? <==> statuses.Keys <= Members(pending)
  {
    if exists id :: id in statuses && id !in pending then Err(InvalidOutcome) else Ok(Partial(statuses))
  }

  /** A report that was accepted when built is never invalid when classified. */
  lemma BuiltReportsAreValid(pending: seq<OperationId>, statuses: map<OperationId, Status>)
    ensures PartialReport(pending, statuses).Ok? ==>
              Classify(PartialReport(pending, statuses).value, pending).Ok?
    ensures forall left: set<OperationId> :: Reported(statuses, pending, left) ==>
              Classify(Partial(statuses), pending).Ok?
  {
    InvalidIff(statuses, pending);
  }

  /** A round trip: what was left out when reporting is exactly what stays pending. */
  lemma LeftIsWhatRemains(pending: seq<OperationId>, statuses: map<OperationId, Status>, left: set<OperationId>)
    requires Distinct(pending) && Reported(statuses, pending, left) && left <= Members(pending) && left != {}
    ensures Classify(Partial(statuses), pending) == Ok(Incomplete(Members(pending) - left, RequiresRetry))
  {
    InvalidIff(statuses, pending);
    WrittenIff(statuses, pending);
    var x :| x in left;
    assert x in pending && statuses[x] == Retryable;
    FailureIff(statuses, pending);
    assert Done(statuses) == Members(pending) - left;
  }

  // ----- A batch over all its attempts

  function Without(ids: seq<OperationId>, gone: set<OperationId>): seq<OperationId> {
    if ids == [] then []
    else if ids[0] in gone then Without(ids[1..], gone)
    else [ids[0]] + Without(ids[1..], gone)
  }

  lemma {:induction false} WithoutMembers(ids: seq<OperationId>, gone: set<OperationId>)
    ensures forall id :: id in Without(ids, gone) <==> id in ids && id !in gone
    ensures Members(Without(ids, gone)) == Members(ids) - gone
    ensures Distinct(ids) ==> Distinct(Without(ids, gone))
    decreases |ids|
  {
    if ids != [] {
      var rest := ids[1..];
      WithoutMembers(rest, gone);
      assert ids == [ids[0]] + rest;
      if Distinct(ids) {
        assert ids[0] !in rest;
        assert forall i, j :: 0 <= i < j < |rest| ==> rest[i] == ids[i + 1] && rest[j] == ids[j + 1];
      }
    }
  }

  /** `Idle` is retained without a running turn; a turn delivers the `pending` view of its lease. */
  datatype Stage = Idle | Leased | Written | Queued | Quarantined

  /**
   One sealed batch; `recorded` counts how often each operation was recorded as
   completed, `published` how often the whole batch went to the queue.
   */
  datatype Entry = Entry(
    ids: seq<OperationId>, completed: set<OperationId>, pending: seq<OperationId>, stage: Stage,
    recorded: multiset<OperationId>, published: nat)

  /** The fate of a settlement: applied and acknowledged, applied unheard, or refused. */
  datatype Reply = Acknowledged | Unheard | Refused

  /** The fate of a publication: accepted, accepted but not heard of by the deadline, or failed. */
  datatype Publication = Accepted | AcceptedUnheard | Failed

  datatype Action =
    | Lease
    | EndTurn
    | Attempt(result: Result<Outcome, Failure>, reply: Reply)
    | HandOff(publication: Publication, reply: Reply)

  predicate Enabled(e: Entry, a: Action) {
    match a
    case Lease => e.stage == Idle
    case EndTurn => e.stage == Leased
    case Attempt(_, _) => e.stage == Leased
    case HandOff(_, _) => e.stage == Leased
  }

  function Judge(result: Result<Outcome, Failure>, pending: seq<OperationId>): Result<Verdict, Failure> {
    if result.Err? then Err(result.error) else Classify(result.value, pending)
  }

  /** Records progress on the retained batch, which completes it when nothing is pending any more. */
  function Record(e: Entry, done: set<OperationId>, stage: Stage): Entry {
    e.(completed := e.completed + done,
       recorded := e.recorded + multiset(done),
       stage := if stage == Quarantined then Quarantined
                else if Without(e.ids, e.completed + done) == [] then Written
                else stage)
  }

  /** A retryable failure checkpoints what was completed, if anything was. */
  function Checkpoint(e: Entry, done: set<OperationId>, reply: Reply): Entry {
    var trimmed := e.(pending := Without(e.pending, done));
    if done == {} then e
    else match reply
      case Acknowledged => Record(trimmed, done, Leased)
      case Unheard => Record(trimmed, done, Idle)
      case Refused => trimmed.(stage := Idle)
  }

  function Quarantine(e: Entry, done: set<OperationId>, reply: Reply): Entry {
    if reply == Refused then e.(stage := Idle) else Record(e, done, Quarantined)
  }

  function Fail(e: Entry, done: set<OperationId>, failure: Failure, reply: Reply): Entry {
    match failure
    case InvalidOutcome => e.(stage := Idle)
    case PermanentlyRejected => Quarantine(e, done, reply)
    case _ => Checkpoint(e, done, reply)
  }

  function Act(e: Entry, a: Action): Entry
    requires Enabled(e, a)
  {
    match a
    case Lease => e.(pending := Without(e.ids, e.completed), stage := Leased)
    case EndTurn => e.(stage := Idle)
    case HandOff(Failed, _) => e
    case HandOff(AcceptedUnheard, _) => e.(published := e.published + 1)
    case HandOff(Accepted, reply) =>
      e.(published := e.published + 1, stage := if reply == Refused then Idle else Queued)
    case Attempt(result, reply) =>
      match Judge(result, e.pending)
      case Err(failure) => Fail(e, {}, failure, reply)
      case Ok(Incomplete(done, failure)) => Fail(e, done, failure, reply)
      case Ok(AllWritten) =>
        if reply == Refused then e.(stage := Idle)
        else e.(stage := Written, recorded := e.recorded + multiset(e.pending))
  }

  /** What an attempt came to, by what the sink said of each operation dispatched. */
  datatype Finding = AllDone | Rejected | Nonsense | Unfinished

  ghost function Found(result: Result<Outcome, Failure>, pending: seq<OperationId>): Finding {
    match result
    case Err(PermanentlyRejected) => Rejected
    case Err(InvalidOutcome) => Nonsense
    case Err(_) => Unfinished
    case Ok(Complete) => AllDone
    case Ok(Partial(statuses)) =>
      if !(statuses.Keys <= Members(pending)) then Nonsense
      else if AllCompleted(statuses, pending) then AllDone
      else if exists id :: id in statuses && statuses[id] == Permanent then Rejected
      else Unfinished
  }

  predicate Init(e: Entry) {
    && Distinct(e.ids) && e.ids != [] && e.completed == {} && e.stage == Idle
    && e.recorded == multiset{} && e.published == 0
  }

  ghost predicate Behavior(es: seq<Entry>, acts: seq<Action>) {
    && |es| == |acts| + 1 && Init(es[0])
    && forall i :: 0 <= i < |acts| ==> Enabled(es[i], acts[i]) && es[i + 1] == Act(es[i], acts[i])
  }

  /** Completed and pending operations partition the batch, and each was recorded as often as it completed. */
  ghost predicate Conserved(e: Entry) {
    && Distinct(e.ids) && e.completed <= Members(e.ids)
    && (e.stage == Leased ==> Distinct(e.pending) && Members(e.pending) == Members(e.ids) - e.completed)
    && (if e.stage == Written then e.recorded == multiset(e.ids) else e.recorded == multiset(e.completed))
    && (e.stage == Queued ==> e.published > 0)
  }

  lemma {:induction false} DistinctMultiset(ids: seq<OperationId>)
    requires Distinct(ids)
    ensures multiset(ids) == multiset(Members(ids))
    decreases |ids|
  {
    if ids != [] {
      var n := |ids| - 1;
      DistinctMultiset(ids[..n]);
      assert ids == ids[..n] + [ids[n]];
      assert Members(ids) == Members(ids[..n]) + {ids[n]};
      assert ids[n] !in ids[..n];
    }
  }

  lemma RecordKeeps(e: Entry, done: set<OperationId>, stage: Stage)
    requires Conserved(e) && e.stage == Leased && done <= Members(e.ids) - e.completed
    requires stage != Written && stage != Queued
    ensures var e' := Record(e.(pending := Without(e.pending, done)), done, stage); Conserved(e')
    ensures stage == Quarantined ==> Conserved(Record(e, done, stage))
  {
    WithoutMembers(e.pending, done);
    WithoutMembers(e.ids, e.completed + done);
    assert multiset(e.completed + done) == multiset(e.completed) + multiset(done);
    DistinctMultiset(e.ids);
    if Without(e.ids, e.completed + done) == [] {
      assert forall id :: id in e.ids ==> id in e.completed + done;
      assert e.completed + done == Members(e.ids);
    }
  }

  lemma FailConserves(e: Entry, done: set<OperationId>, failure: Failure, reply: Reply)
    requires Conserved(e) && e.stage == Leased && done <= Members(e.pending)
    ensures Conserved(Fail(e, done, failure, reply)) && Fail(e, done, failure, reply).ids == e.ids
  {
    RecordKeeps(e, done, Leased);
    RecordKeeps(e, done, Idle);
    RecordKeeps(e, done, Quarantined);
  }

  lemma DeliveryConserves(e: Entry)
    requires Conserved(e) && e.stage == Leased
    ensures e.recorded + multiset(e.pending) == multiset(e.ids)
  {
    DistinctMultiset(e.ids);
    DistinctMultiset(e.pending);
    assert multiset(e.completed) + multiset(Members(e.pending)) == multiset(Members(e.ids));
  }

  lemma StepConserves(e: Entry, a: Action)
    requires Conserved(e) && Enabled(e, a)
    ensures Conserved(Act(e, a)) && Act(e, a).ids == e.ids
  {
    match a
    case Lease => WithoutMembers(e.ids, e.completed);
    case EndTurn =>
    case HandOff(_, _) =>
    case Attempt(result, reply) =>
      match Judge(result, e.pending)
      case Ok(AllWritten) => DeliveryConserves(e);
      case Err(failure) => FailConserves(e, {}, failure, reply);
      case Ok(Incomplete(done, failure)) =>
        InvalidIff(result.value.statuses, e.pending);
        DoneWithin(result.value.statuses, e.pending);
        FailConserves(e, done, failure, reply);
  }

  /** The operations the sink reported completed. */
  function DoneBy(result: Result<Outcome, Failure>): set<OperationId> {
    if result.Ok? && result.value.Partial? then Done(result.value.statuses) else {}
  }

  lemma JudgeFound(result: Result<Outcome, Failure>, pending: seq<OperationId>)
    requires Distinct(pending)
    ensures
      var j := Judge(result, pending);
      match Found(result, pending)
      case AllDone => j == Ok(AllWritten)
      case Nonsense => j == Err(InvalidOutcome)
      case Rejected =>
        j == Err(PermanentlyRejected) || (j.Ok? && j.value.Incomplete? && j.value.failure == PermanentlyRejected)
      case Unfinished =>
        var f := if j.Err? then j.error else if j.value.Incomplete? then j.value.failure else InvalidOutcome;
        f == UnknownOutcome || f == RequiresRetry
  {
    if result.Ok? && result.value.Partial? {
      var statuses := result.value.statuses;
      InvalidIff(statuses, pending);
      if statuses.Keys <= Members(pending) {
        WrittenIff(statuses, pending);
        if !AllCompleted(statuses, pending) { FailureIff(statuses, pending); }
      }
    }
  }

  /**
   Where every attempt leaves the batch: written iff all dispatched operations
   are done, quarantined iff one was permanently rejected, set aside on a report
   that makes no sense, and otherwise still in its turn unless a checkpoint was
   needed and not confirmed. A refused settlement sets it aside.
   */
  lemma AttemptLeaves(e: Entry, result: Result<Outcome, Failure>, reply: Reply)
    requires Conserved(e) && e.stage == Leased && e.pending != []
    ensures
      var stage := Act(e, Attempt(result, reply)).stage;
      match Found(result, e.pending)
      case AllDone => stage == if reply == Refused then Idle else Written
      case Rejected => stage == if reply == Refused then Idle else Quarantined
      case Nonsense => stage == Idle
      case Unfinished => stage == if DoneBy(result) == {} || reply == Acknowledged then Leased else Idle
  {
    JudgeFound(result, e.pending);
    if Found(result, e.pending).Unfinished? {
      UnfinishedLeaves(e, result, reply);
      UnfinishedLeft(result, e.pending);
      CheckpointLeaves(e, DoneBy(result), reply);
    }
  }

  /** What the sink reported completed is recorded by any attempt that does not complete, unless refused. */
  lemma AttemptRecords(e: Entry, result: Result<Outcome, Failure>, reply: Reply)
    requires Conserved(e) && e.stage == Leased
    requires Found(result, e.pending).Rejected? || Found(result, e.pending).Unfinished?
    ensures Act(e, Attempt(result, reply)).completed ==
            if reply == Refused then e.completed else e.completed + DoneBy(result)
  {
    if Found(result, e.pending).Unfinished? {
      UnfinishedLeaves(e, result, reply);
    } else {
      RejectedLeaves(e, result, reply);
    }
  }

  lemma RejectedJudged(result: Result<Outcome, Failure>, pending: seq<OperationId>)
    requires Distinct(pending) && Found(result, pending).Rejected?
    ensures result.Ok? ==> Judge(result, pending) == Ok(Incomplete(DoneBy(result), PermanentlyRejected))
    ensures result.Err? ==> result.error == PermanentlyRejected
  {
    JudgeFound(result, pending);
    if result.Ok? { InvalidIff(result.value.statuses, pending); }
  }

  lemma RejectedLeaves(e: Entry, result: Result<Outcome, Failure>, reply: Reply)
    requires Conserved(e) && e.stage == Leased && Found(result, e.pending).Rejected?
    ensures Act(e, Attempt(result, reply)) == Quarantine(e, DoneBy(result), reply)
  {
    RejectedJudged(result, e.pending);
  }

  lemma CheckpointLeaves(e: Entry, done: set<OperationId>, reply: Reply)
    requires Conserved(e) && e.stage == Leased && done < Members(e.pending)
    ensures Checkpoint(e, done, reply).stage == if done == {} || reply == Acknowledged then Leased else Idle
  {
    WithoutMembers(e.ids, e.completed + done);
    var id :| id in Members(e.pending) && id !in done;
    assert id in Without(e.ids, e.completed + done);
  }

  lemma UnfinishedLeft(result: Result<Outcome, Failure>, pending: seq<OperationId>)
    requires pending != [] && Found(result, pending).Unfinished?
    ensures DoneBy(result) < Members(pending)
  {
    if result.Ok? {
      var statuses := result.value.statuses;
      DoneWithin(statuses, pending);
      var id :| id in pending && !(id in statuses && statuses[id] == Completed);
      assert id in Members(pending) && id !in Done(statuses);
    } else {
      assert pending[0] in Members(pending);
    }
  }

  lemma UnfinishedJudged(result: Result<Outcome, Failure>, pending: seq<OperationId>)
    requires Distinct(pending) && Found(result, pending).Unfinished?
    ensures result.Ok? ==> Judge(result, pending).Ok? && Judge(result, pending).value.Incomplete?
                           && Judge(result, pending).value.done == DoneBy(result)
  {
    JudgeFound(result, pending);
    if result.Ok? { InvalidIff(result.value.statuses, pending); }
  }

  lemma UnfinishedLeaves(e: Entry, result: Result<Outcome, Failure>, reply: Reply)
    requires Conserved(e) && e.stage == Leased && Found(result, e.pending).Unfinished?
    ensures Act(e, Attempt(result, reply)) == Checkpoint(e, DoneBy(result), reply)
  {
    JudgeFound(result, e.pending);
    UnfinishedJudged(result, e.pending);
  }

  /** Over every sequence of leases, attempts and lost replies, the batch is conserved. */
  lemma {:induction false} ConservedAlways(es: seq<Entry>, acts: seq<Action>, i: nat)
    requires Behavior(es, acts) && i < |es|
    ensures Conserved(es[i]) && es[i].ids == es[0].ids
  {
    if i > 0 {
      ConservedAlways(es, acts, i - 1);
      StepConserves(es[i - 1], acts[i - 1]);
    }
  }

  /**
   No operation is recorded as completed twice, every attempt dispatches exactly
   the ones not recorded yet, and a batch counts as written only when each of its
   operations was recorded exactly once.
   */
  lemma EachOperationOnce(es: seq<Entry>, acts: seq<Action>, i: nat)
    requires Behavior(es, acts) && i < |es|
    ensures forall id :: es[i].recorded[id] <= 1
    ensures es[i].stage == Leased ==> forall id :: id in es[i].pending <==> id in es[0].ids && es[i].recorded[id] == 0
    ensures es[i].stage == Written ==> forall id :: es[i].recorded[id] == if id in es[0].ids then 1 else 0
  {
    ConservedAlways(es, acts, i);
    DistinctMultiset(es[i].ids);
    if es[i].stage == Leased {
      forall id ensures id in es[i].pending <==> id in es[0].ids && es[i].recorded[id] == 0 {
        assert id in es[i].pending <==> id in Members(es[i].pending);
      }
    }
  }

  /** A batch is quarantined only by an attempt in which the sink rejected something for good. */
  lemma {:induction false} QuarantinedForCause(es: seq<Entry>, acts: seq<Action>, i: nat) returns (k: nat)
    requires Behavior(es, acts) && i < |es| && es[i].stage == Quarantined
    ensures k < i && acts[k].Attempt? && Found(acts[k].result, es[k].pending).Rejected?
  {
    assert i > 0 && es[i] == Act(es[i - 1], acts[i - 1]);
    k := i - 1;
    QuarantineStep(es, acts, i);
  }

  lemma QuarantineStep(es: seq<Entry>, acts: seq<Action>, i: nat)
    requires Behavior(es, acts) && 0 < i < |es| && es[i].stage == Quarantined
    ensures acts[i - 1].Attempt? && Found(acts[i - 1].result, es[i - 1].pending).Rejected?
  {
    ConservedAlways(es, acts, i - 1);
    var e, a := es[i - 1], acts[i - 1];
    assert es[i] == Act(e, a);
    if a.Attempt? {
      JudgeFound(a.result, e.pending);
      if Found(a.result, e.pending).Unfinished? { UnfinishedLeaves(e, a.result, a.reply); }
    }
  }

  /** How often an operation was recorded as completed or handed to the queue. */
  function Deliveries(e: Entry, id: OperationId): nat {
    e.recorded[id] + if id in e.ids then e.published else 0
  }

  ghost predicate OnceEach(e: Entry) {
    forall id :: id in e.ids ==> Deliveries(e, id) == 1
  }

  /** Nothing is lost: in every run, a batch that is done with has every operation recorded or published. */
  lemma NothingLost(es: seq<Entry>, acts: seq<Action>, i: nat, id: OperationId)
    requires Behavior(es, acts) && i < |es| && id in es[0].ids
    requires es[i].stage == Written || es[i].stage == Queued
    ensures Deliveries(es[i], id) >= 1
  {
    ConservedAlways(es, acts, i);
  }

  /**
   A batch handed off goes to the queue whole. From every reachable turn, a
   hand-off that settles the batch sends each operation one way only iff nothing
   of it was recorded or published before.
   */
  lemma HandOffOnceIff(es: seq<Entry>, acts: seq<Action>, reply: Reply)
    requires Behavior(es, acts) && es[|acts|].stage == Leased && reply != Refused
    ensures var e := es[|acts|];
            OnceEach(Act(e, HandOff(Accepted, reply))) <==> e.completed == {} && e.published == 0
  {
    ConservedAlways(es, acts, |acts|);
    var e := es[|acts|];
    var e' := Act(e, HandOff(Accepted, reply));
    forall id | id in e.completed ensures id in e'.ids && Deliveries(e', id) >= 2 {
      assert id in Members(e.ids);
    }
    assert Deliveries(e', e.ids[0]) >= e.published + 1;
  }

  /**
   From every reachable turn, an attempt that settles the batch as written
   leaves each operation sent one way only iff the batch was never published.
   */
  lemma WriteOnceIff(es: seq<Entry>, acts: seq<Action>, result: Result<Outcome, Failure>, reply: Reply)
    requires Behavior(es, acts) && es[|acts|].stage == Leased
    requires Act(es[|acts|], Attempt(result, reply)).stage == Written
    ensures OnceEach(Act(es[|acts|], Attempt(result, reply))) <==> es[|acts|].published == 0
  {
    var e := es[|acts|];
    var e' := Act(e, Attempt(result, reply));
    ConservedAlways(es, acts, |acts|);
    StepConserves(e, Attempt(result, reply));
    DistinctMultiset(e.ids);
    assert e'.published == e.published;
    forall id | id in e.ids ensures Deliveries(e', id) == 1 + e.published {
      assert id in Members(e.ids);
    }
    assert e.ids[0] in e.ids;
  }

  predicate Publishes(a: Action) {
    a.HandOff? && !a.publication.Failed?
  }

  function Publications(acts: seq<Action>, i: nat): nat
    requires i <= |acts|
  {
    if i == 0 then 0 else Publications(acts, i - 1) + if Publishes(acts[i - 1]) then 1 else 0
  }

  /** Every accepted publication is counted, heard of or not, and nothing else. */
  lemma {:induction false} PublicationsCounted(es: seq<Entry>, acts: seq<Action>, i: nat)
    requires Behavior(es, acts) && i < |es|
    ensures es[i].published == Publications(acts, i)
  {
    if i > 0 {
      PublicationsCounted(es, acts, i - 1);
      assert es[i] == Act(es[i - 1], acts[i - 1]);
    }
  }

  /**
   A hand-off records nothing. It ends the turn iff its publication was heard
   of, and then the batch is done with unless the settlement was refused.
   */
  lemma HandOffLeaves(e: Entry, publication: Publication, reply: Reply)
    requires e.stage == Leased
    ensures var e' := Act(e, HandOff(publication, reply));
            && (e'.stage == Leased <==> publication != Accepted)
            && (e'.stage == Queued <==> publication == Accepted && reply != Refused)
            && e'.completed == e.completed && e'.pending == e.pending && e'.recorded == e.recorded
  {
  }

  const SEALED := Entry([0, 1], {}, [0, 1], Idle, multiset{}, 0)
  const LEASED := SEALED.(stage := Leased)

  lemma LeaseSealed()
    ensures Init(SEALED) && Act(SEALED, Lease) == LEASED
  {
    assert Without([1], {}) == [1] by { assert [1][1..] == []; }
    assert [0, 1][1..] == [1];
    assert Without([0, 1], {}) == [0] + Without([1], {}) == [0, 1];
  }

  const HALF := map[0 := Completed, 1 := Retryable]

  lemma JudgeHalf()
    ensures Classify(Partial(HALF), [0, 1]) == Ok(Incomplete({0}, RequiresRetry))
  {
    assert HALF.Keys == {0, 1} == Members([0, 1]);
    InvalidIff(HALF, [0, 1]);
    assert Done(HALF) == {0};
  }

  /** One operation completed and checkpointed, the other left. */
  lemma CheckpointHalf() returns (e: Entry)
    ensures e == Act(LEASED, Attempt(Ok(Partial(HALF)), Acknowledged))
    ensures e.stage == Leased && e.recorded == multiset{0} && e.ids == [0, 1] && e.published == 0
  {
    JudgeHalf();
    e := Act(LEASED, Attempt(Ok(Partial(HALF)), Acknowledged));
    WithoutMembers(LEASED.ids, {0});
    assert 1 in Without(LEASED.ids, {0});
  }

  /** A checkpoint and then a hand-off: the completed operation is recorded and published. */
  lemma HandOffAfterCheckpoint() returns (es: seq<Entry>, acts: seq<Action>)
    ensures Behavior(es, acts) && es[|acts|].stage == Queued && Deliveries(es[|acts|], 0) == 2
  {
    LeaseSealed();
    var e := CheckpointHalf();
    es := [SEALED, LEASED, e, Act(e, HandOff(Accepted, Acknowledged))];
    acts := [Lease, Attempt(Ok(Partial(HALF)), Acknowledged), HandOff(Accepted, Acknowledged)];
  }

  /** A hand-off whose settlement is refused, and then a delivery: every operation goes both ways. */
  lemma WriteAfterHandOff() returns (es: seq<Entry>, acts: seq<Action>)
    ensures Behavior(es, acts) && es[|acts|].stage == Written
    ensures Deliveries(es[|acts|], 0) == 2 && Deliveries(es[|acts|], 1) == 2
  {
    LeaseSealed();
    var e2 := LEASED.(published := 1, stage := Idle);
    var e3 := LEASED.(published := 1);
    var e4 := e3.(stage := Written, recorded := multiset{0, 1});
    assert multiset{} + multiset([0, 1]) == multiset{0, 1};
    es := [SEALED, LEASED, e2, e3, e4];
    acts := [Lease, HandOff(Accepted, Refused), Lease, Attempt(Ok(Complete), Acknowledged)];
  }
}
