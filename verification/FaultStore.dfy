/**
 The fault-injecting store wrapper: a queue of one-shot faults that lose the
 acknowledgement of a commit before or after it reaches the wrapped store.
 */
module FaultStore {
  import opened Wrappers
  import opened Keys
  import opened Store
  import StoreRuns
  import opened StoreModel

  datatype FaultOperation = Get | GetMany | Range

  datatype ReadFault = Unavailable | Timeout

  datatype CommitFault = Transient(kind: ReadFault) | InjectedConflict | UnknownBeforeCommit | UnknownAfterCommit

  datatype Fault = OnRead(operation: FaultOperation, read: ReadFault) | OnCommit(commit: CommitFault)

  datatype FaultError = Inner(error: Error) | Injected(kind: ReadFault) | CommitOperationReused

  type Answer = Result<Outcome, FaultError>

  /** The wrapped store, the queued faults and the transactions given an injected conflict. */
  datatype World = World(inner: State, queue: seq<Fault>, injected: map<OperationId, Transaction>)

  predicate Selects(operation: Option<FaultOperation>, f: Fault) {
    match operation
    case Some(op) => f.OnRead? && f.operation == op
    case None => f.OnCommit?
  }

  /** The first queued fault for the operation and the queue without it. */
  function Take(queue: seq<Fault>, operation: Option<FaultOperation>): (r: (Option<Fault>, seq<Fault>))
    ensures r.0.Some? ==> Selects(operation, r.0.value) && |r.1| + 1 == |queue|
    ensures r.0.None? ==> r.1 == queue && forall f :: f in queue ==> !Selects(operation, f)
  {
    if queue == [] then (None, [])
    else if Selects(operation, queue[0]) then (Some(queue[0]), queue[1..])
    else
      var (f, rest) := Take(queue[1..], operation);
      assert queue == [queue[0]] + queue[1..];
      (f, [queue[0]] + rest)
  }

  /** Taking from a queue whose first selected fault is at `i`, or that has none. */
  lemma {:induction false} TakeAt(queue: seq<Fault>, operation: Option<FaultOperation>, i: nat)
    requires i <= |queue| && (forall j :: 0 <= j < i ==> !Selects(operation, queue[j]))
    requires i < |queue| ==> Selects(operation, queue[i])
    ensures Take(queue, operation) ==
            if i == |queue| then (None, queue) else (Some(queue[i]), queue[..i] + queue[i + 1..])
    decreases i
  {
    if i == 0 {
      assert queue != [] ==> queue[..0] + queue[1..] == queue[1..];
    } else {
      TakeAt(queue[1..], operation, i - 1);
      assert queue == [queue[0]] + queue[1..];
      if i < |queue| {
        assert [queue[0]] + (queue[1..][..i - 1] + queue[1..][i..]) == queue[..i] + queue[i + 1..];
      }
    }
  }

  function Acknowledge(inner: Result<Outcome, Error>): Answer {
    match inner case Ok(o) => Ok(o) case Err(e) => Err(Inner(e))
  }

  function Lose(answer: Answer): Answer {
    if answer == Ok(Committed) then Ok(Unknown) else answer
  }

  function CommitThrough(caps: Capabilities, w: World, t: Transaction): (World, Answer) {
    if t.id in w.injected then
      (w, if w.injected[t.id] == t then Ok(Conflict) else Err(CommitOperationReused))
    else
      var (fault, queue) := Take(w.queue, None);
      var drawn := w.(queue := queue);
      var (inner, reply) := CommitStep(caps, w.inner, t);
      match fault
      case None => (drawn.(inner := inner), Acknowledge(reply))
      case Some(f) =>
        match f.commit
        case Transient(kind) => (drawn, Err(Injected(kind)))
        case InjectedConflict => (drawn.(injected := w.injected[t.id := t]), Ok(Conflict))
        case UnknownBeforeCommit => (drawn, Ok(Unknown))
        case UnknownAfterCommit => (drawn.(inner := inner), Lose(Acknowledge(reply)))
  }

  // ----- Runs

  datatype Call =
    | CommitCall(transaction: Transaction)
    | QueueCall(fault: Fault)
    | ClearCall
    | ReadCall(operation: FaultOperation)

  function Step(caps: Capabilities, w: World, c: Call): World {
    match c
    case CommitCall(t) => CommitThrough(caps, w, t).0
    case QueueCall(f) => w.(queue := w.queue + [f])
    case ClearCall => w.(queue := [])
    case ReadCall(op) => w.(queue := Take(w.queue, Some(op)).1)
  }

  function Final(caps: Capabilities, w: World, cs: seq<Call>): World
    decreases |cs|
  {
    if cs == [] then w else Final(caps, Step(caps, w, cs[0]), cs[1..])
  }

  /** The commit is passed on to the wrapped store. */
  predicate Reaches(w: World, t: Transaction) {
    && t.id !in w.injected
    && match Take(w.queue, None).0 case None => true case Some(f) => f.commit.UnknownAfterCommit?
  }

  function Reached(caps: Capabilities, w: World, cs: seq<Call>): seq<StoreRuns.Call>
    decreases |cs|
  {
    if cs == [] then [] else
      (if cs[0].CommitCall? && Reaches(w, cs[0].transaction) then [StoreRuns.CommitCall(cs[0].transaction)] else [])
      + Reached(caps, Step(caps, w, cs[0]), cs[1..])
  }

  /** Whatever the faults, the wrapped store just ran the commits that reached it. */
  lemma {:induction false} InnerRun(caps: Capabilities, w: World, cs: seq<Call>)
    ensures Final(caps, w, cs).inner == StoreRuns.Final(caps, w.inner, Reached(caps, w, cs))
    decreases |cs|
  {
    if cs != [] {
      var w' := Step(caps, w, cs[0]);
      var rest := Reached(caps, w', cs[1..]);
      InnerRun(caps, w', cs[1..]);
      if cs[0].CommitCall? && Reaches(w, cs[0].transaction) {
        var c := StoreRuns.CommitCall(cs[0].transaction);
        assert ([c] + rest)[1..] == rest;
      } else {
        assert [] + rest == rest;
      }
    }
  }

  /**
   At most once under lost acknowledgements: in every run the wrapped entries
   are the effects of winners applied one after another, no operation ID among
   them twice and none that the wrapped store had bound before the run.
   */
  lemma AtMostOnce(caps: Capabilities, w: World, cs: seq<Call>)
    ensures
      var winners := StoreRuns.Winners(caps, w.inner, Reached(caps, w, cs));
      && Final(caps, w, cs).inner.entries == StoreRuns.Effects(w.inner.entries, winners)
      && StoreRuns.DistinctIds(winners)
      && StoreRuns.FreshIds(w.inner, winners)
  {
    var reached := Reached(caps, w, cs);
    InnerRun(caps, w, cs);
    StoreRuns.SerialEffects(caps, w.inner, reached);
    StoreRuns.WinnersDistinct(caps, w.inner, reached);
  }

  /**
   An injected conflict is final: after any run its transaction still answers
   Conflict, any other with its ID the reuse error, and neither changes anything.
   */
  lemma {:induction false} InjectedForever(caps: Capabilities, w: World, cs: seq<Call>, t: Transaction, u: Transaction)
    requires t.id in w.injected && w.injected[t.id] == t && u.id == t.id
    ensures var w' := Final(caps, w, cs);
            && t.id in w'.injected
            && CommitThrough(caps, w', u) == (w', if u == t then Ok(Conflict) else Err(CommitOperationReused))
    decreases |cs|
  {
    if cs != [] { InjectedForever(caps, Step(caps, w, cs[0]), cs[1..], t, u); }
  }

  // ----- Without faults

  /** The wrapped store's own answers, as the wrapper hands them on. */
  function Passed(r: StoreRuns.Reply): Answer
    requires r.CommitReply?
  {
    if r.commit.Ok? then Ok(r.commit.value) else Err(Inner(r.commit.error))
  }

  /** What the wrapper answers to each of a sequence of commits. */
  function Answers(caps: Capabilities, w: World, ts: seq<Transaction>): (as_: seq<Answer>)
    ensures |as_| == |ts|
    decreases |ts|
  {
    if ts == [] then [] else
      [CommitThrough(caps, w, ts[0]).1] + Answers(caps, CommitThrough(caps, w, ts[0]).0, ts[1..])
  }

  function Commits(ts: seq<Transaction>): (cs: seq<StoreRuns.Call>)
    ensures |cs| == |ts| && forall i :: 0 <= i < |ts| ==> cs[i] == StoreRuns.CommitCall(ts[i])
  {
    if ts == [] then [] else [StoreRuns.CommitCall(ts[0])] + Commits(ts[1..])
  }

  lemma {:induction false} RepliesAreCommits(caps: Capabilities, s: State, ts: seq<Transaction>, i: nat)
    requires i < |ts|
    ensures StoreRuns.Replies(caps, s, Commits(ts))[i].CommitReply?
    decreases |ts|
  {
    assert Commits(ts)[1..] == Commits(ts[1..]);
    if i > 0 { RepliesAreCommits(caps, StoreRuns.Step(caps, s, Commits(ts)[0]).0, ts[1..], i - 1); }
  }

  /**
   Transparent: with no commit fault queued, every sequence of commits, accepted
   or rejected, is answered as the wrapped store alone would answer it, but for
   IDs a conflict was injected for earlier.
   */
  lemma {:induction false} Transparent(caps: Capabilities, w: World, ts: seq<Transaction>, i: nat)
    requires CommitFaults(w.queue) == [] && i < |ts|
    requires forall j :: 0 <= j < |ts| ==> ts[j].id !in w.injected
    ensures StoreRuns.Replies(caps, w.inner, Commits(ts))[i].CommitReply?
    ensures Answers(caps, w, ts)[i] == Passed(StoreRuns.Replies(caps, w.inner, Commits(ts))[i])
    decreases |ts|
  {
    RepliesAreCommits(caps, w.inner, ts, i);
    TakeCommitFault(w.queue);
    var w' := CommitThrough(caps, w, ts[0]).0;
    assert Take(w.queue, None) == (None, w.queue);
    assert Commits(ts)[1..] == Commits(ts[1..]);
    if i > 0 { Transparent(caps, w', ts[1..], i - 1); }
  }

  /** A rejected commit is rejected through the wrapper too, also when its acknowledgement would be lost. */
  lemma RejectionPasses(caps: Capabilities, w: World, t: Transaction)
    requires Reaches(w, t) && CommitStep(caps, w.inner, t).1.Err?
    ensures CommitThrough(caps, w, t).1 == Err(Inner(CommitStep(caps, w.inner, t).1.error))
    ensures CommitThrough(caps, w, t).0.inner == w.inner
  {
  }

  // ----- Replaying until a definite answer

  /** The queued commit faults, in drawing order. */
  function CommitFaults(queue: seq<Fault>): seq<CommitFault> {
    if queue == [] then []
    else (if queue[0].OnCommit? then [queue[0].commit] else []) + CommitFaults(queue[1..])
  }

  lemma {:induction false} TakeCommitFault(queue: seq<Fault>)
    ensures
      var (f, rest) := Take(queue, None);
      && (f.None? ==> CommitFaults(queue) == [])
      && (f.Some? ==> CommitFaults(queue) == [f.value.commit] + CommitFaults(rest))
    decreases |queue|
  {
    if queue != [] && !queue[0].OnCommit? {
      TakeCommitFault(queue[1..]);
      var (f, rest) := Take(queue[1..], None);
      assert ([queue[0]] + rest)[1..] == rest;
      assert [] + CommitFaults(rest) == CommitFaults(rest);
      assert [] + CommitFaults(queue[1..]) == CommitFaults(queue[1..]);
    }
  }

  /** The wrapped store records only definite outcomes. */
  ghost predicate Definite(s: State) {
    forall id :: id in s.commits ==> s.commits[id].outcome != Unknown
  }

  lemma DefiniteKept(caps: Capabilities, s: State, t: Transaction)
    requires Definite(s)
    ensures Definite(CommitStep(caps, s, t).0) && CommitStep(caps, s, t).1 != Ok(Unknown)
  {
  }

  predicate Inconclusive(a: Answer) {
    a == Ok(Unknown) || (a.Err? && a.error.Injected?)
  }

  /** Only a drawn commit fault leaves a call inconclusive. */
  lemma InconclusiveDraws(caps: Capabilities, w: World, t: Transaction)
    requires Definite(w.inner)
    ensures
      var (w', a) := CommitThrough(caps, w, t);
      && Definite(w'.inner)
      && (Inconclusive(a) ==> |CommitFaults(w'.queue)| < |CommitFaults(w.queue)|)
  {
    DefiniteKept(caps, w.inner, t);
    TakeCommitFault(w.queue);
  }

  /** Call again with the same transaction until the answer is conclusive. */
  ghost function Settle(caps: Capabilities, w: World, t: Transaction): (r: (World, Answer, nat))
    requires Definite(w.inner)
    ensures !Inconclusive(r.1)
    ensures 1 <= r.2 <= |CommitFaults(w.queue)| + 1
    decreases |CommitFaults(w.queue)|
  {
    InconclusiveDraws(caps, w, t);
    var (w', a) := CommitThrough(caps, w, t);
    if Inconclusive(a) then
      var (w'', b, n) := Settle(caps, w', t);
      (w'', b, n + 1)
    else
      (w', a, 1)
  }

  /** What the wrapped store has recorded for the transaction, or would record now. */
  function Verdict(s: State, t: Transaction): Outcome {
    if t.id in s.commits then s.commits[t.id].outcome
    else if ChecksMatch(s.entries, t.checks) then Committed
    else Conflict
  }

  /** The transaction is acceptable and its ID is not bound to anything else. */
  predicate Ours(caps: Capabilities, w: World, t: Transaction) {
    && Accepted(caps, t) && t.id !in w.injected
    && (t.id in w.inner.commits ==> w.inner.commits[t.id].transaction == t)
  }

  predicate Applied(s: State, t: Transaction) {
    t.id in s.commits && s.commits[t.id] == Recorded(t, Committed)
  }

  /** A conflict fault is drawn after the commit has already reached the wrapped store. */
  predicate Hides(reached: bool, fs: seq<CommitFault>)
    decreases |fs|
  {
    fs != [] &&
    match fs[0]
    case InjectedConflict => reached
    case UnknownAfterCommit => Hides(true, fs[1..])
    case _ => Hides(reached, fs[1..])
  }

  /** One call of a settling sequence: what it draws, and that the verdict stands. */
  lemma SettleStep(caps: Capabilities, w: World, t: Transaction)
    requires Definite(w.inner) && Ours(caps, w, t)
    ensures
      var (w', a) := CommitThrough(caps, w, t);
      var fs := CommitFaults(w.queue);
      var done := t.id in w.inner.commits;
      && Definite(w'.inner)
      && Verdict(w'.inner, t) == Verdict(w.inner, t)
      && (fs == [] ==> a == Ok(Verdict(w.inner, t)) && t.id in w'.inner.commits)
      && (fs != [] ==>
            match fs[0]
            case InjectedConflict => a == Ok(Conflict) && w'.inner == w.inner
            case UnknownAfterCommit =>
              && t.id in w'.inner.commits
              && (if Verdict(w.inner, t) == Committed then a == Ok(Unknown) else a == Ok(Conflict))
            case UnknownBeforeCommit => a == Ok(Unknown) && w'.inner == w.inner
            case Transient(kind) => a == Err(Injected(kind)) && w'.inner == w.inner)
      && (Inconclusive(a) ==> Ours(caps, w', t) && fs != [] && CommitFaults(w'.queue) == fs[1..])
      && (t.id in w'.inner.commits ==> w'.inner.commits[t.id] == Recorded(t, Verdict(w.inner, t)))
  {
    DefiniteKept(caps, w.inner, t);
    TakeCommitFault(w.queue);
    var (f, rest) := Take(w.queue, None);
    if f.Some? { assert ([f.value.commit] + CommitFaults(rest))[1..] == CommitFaults(rest); }
  }

  /** Settling draws a conflict fault: one comes before the fault it stops at. */
  predicate Draws(verdict: Outcome, fs: seq<CommitFault>)
    decreases |fs|
  {
    fs != [] &&
    match fs[0]
    case InjectedConflict => true
    case UnknownAfterCommit => verdict == Committed && Draws(verdict, fs[1..])
    case _ => Draws(verdict, fs[1..])
  }

  /**
   Settling always ends with Committed or Conflict. Unless it draws a conflict
   fault the answer is the wrapped store's recorded outcome, whether
   acknowledgements were lost before or after the commit.
   */
  lemma {:induction false} SettleReportsRecord(caps: Capabilities, w: World, t: Transaction)
    requires Definite(w.inner) && Ours(caps, w, t)
    requires !Draws(Verdict(w.inner, t), CommitFaults(w.queue))
    ensures
      var (w', a, n) := Settle(caps, w, t);
      && a == Ok(Verdict(w.inner, t))
      && t.id in w'.inner.commits && w'.inner.commits[t.id] == Recorded(t, Verdict(w.inner, t))
    decreases |CommitFaults(w.queue)|
  {
    SettleStep(caps, w, t);
    var (w', a) := CommitThrough(caps, w, t);
    if Inconclusive(a) { SettleReportsRecord(caps, w', t); }
  }

  /**
   The settled answer tells the truth (Committed exactly when the mutations are
   in the wrapped store) iff the checks fail or no conflict fault is drawn
   after the commit reached the wrapped store.
   */
  lemma {:induction false} TruthfulIff(caps: Capabilities, w: World, t: Transaction)
    requires Definite(w.inner) && Ours(caps, w, t)
    ensures
      var (w', a, n) := Settle(caps, w, t);
      && (a == Ok(Committed) || a == Ok(Conflict))
      && ((a == Ok(Committed) <==> Applied(w'.inner, t)) <==>
          !(Verdict(w.inner, t) == Committed && Hides(t.id in w.inner.commits, CommitFaults(w.queue))))
    decreases |CommitFaults(w.queue)|
  {
    SettleStep(caps, w, t);
    var (w', a) := CommitThrough(caps, w, t);
    if Inconclusive(a) { TruthfulIff(caps, w', t); }
  }

  /** The failing case in full: the mutation is stored and the caller is told Conflict. */
  lemma HiddenCommit(caps: Capabilities, id: OperationId, k: Key, v: Bytes, limits: Limits)
    requires Accepted(caps, Transaction(id, [], [Put(k, v)], limits))
    ensures
      var t := Transaction(id, [], [Put(k, v)], limits);
      var w := World(State(map[], map[]), [OnCommit(UnknownAfterCommit), OnCommit(InjectedConflict)], map[]);
      var (w', a, n) := Settle(caps, w, t);
      a == Ok(Conflict) && n == 2 && w'.inner.entries == map[k := v]
  {
    var t := Transaction(id, [], [Put(k, v)], limits);
    var w := World(State(map[], map[]), [OnCommit(UnknownAfterCommit), OnCommit(InjectedConflict)], map[]);
    SettleStep(caps, w, t);
    var (w1, a1) := CommitThrough(caps, w, t);
    SettleStep(caps, w1, t);
    assert t.mutations[..0] == [];
    assert Apply(w.inner.entries, t.mutations) == ApplyOne(w.inner.entries, Put(k, v)) == map[k := v];
  }

  // ----- Repeats interleaved with other calls

  /** Nothing else uses the transaction's ID. */
  ghost predicate Reserved(cs: seq<Call>, t: Transaction) {
    forall i :: 0 <= i < |cs| && cs[i].CommitCall? && cs[i].transaction.id == t.id ==> cs[i].transaction == t
  }

  /** The transaction is still ours, or a conflict was injected for it. */
  ghost predicate StillOurs(caps: Capabilities, w: World, t: Transaction) {
    Definite(w.inner) && Accepted(caps, t) && if t.id in w.injected then w.injected[t.id] == t else Ours(caps, w, t)
  }

  lemma StepStillOurs(caps: Capabilities, w: World, c: Call, t: Transaction)
    requires StillOurs(caps, w, t) && Reserved([c], t)
    ensures StillOurs(caps, Step(caps, w, c), t)
  {
    assert [c][0] == c;
    if c.CommitCall? { DefiniteKept(caps, w.inner, c.transaction); }
  }

  lemma {:induction false} RunStillOurs(caps: Capabilities, w: World, cs: seq<Call>, t: Transaction)
    requires StillOurs(caps, w, t) && Reserved(cs, t)
    ensures StillOurs(caps, Final(caps, w, cs), t)
    decreases |cs|
  {
    if cs != [] {
      assert Reserved([cs[0]], t);
      StepStillOurs(caps, w, cs[0], t);
      RunStillOurs(caps, Step(caps, w, cs[0]), cs[1..], t);
    }
  }

  /**
   After any run in which the transaction was repeated among other calls, a
   conclusive answer to it is the outcome recorded for it in the wrapped store,
   unless a conflict fault was drawn for it.
   */
  lemma RepeatReportsRecord(caps: Capabilities, w: World, cs: seq<Call>, t: Transaction)
    requires Definite(w.inner) && Ours(caps, w, t) && Reserved(cs, t)
    ensures
      var w1 := Final(caps, w, cs);
      var (w', a) := CommitThrough(caps, w1, t);
      t.id !in w'.injected && !Inconclusive(a) ==>
        t.id in w'.inner.commits && w'.inner.commits[t.id].transaction == t && a == Ok(w'.inner.commits[t.id].outcome)
  {
    RunStillOurs(caps, w, cs, t);
    var w1 := Final(caps, w, cs);
    if t.id !in w1.injected { SettleStep(caps, w1, t); }
  }

  /** How often the transaction was answered inconclusively. */
  function Setbacks(caps: Capabilities, w: World, cs: seq<Call>, t: Transaction): nat
    decreases |cs|
  {
    if cs == [] then 0 else
      (if cs[0] == CommitCall(t) && Inconclusive(CommitThrough(caps, w, t).1) then 1 else 0)
      + Setbacks(caps, Step(caps, w, cs[0]), cs[1..], t)
  }

  /** The commit faults queued during a run. */
  function Added(cs: seq<Call>): nat {
    if cs == [] then 0 else (if cs[0].QueueCall? && cs[0].fault.OnCommit? then 1 else 0) + Added(cs[1..])
  }

  lemma {:induction false} FaultsAppend(queue: seq<Fault>, f: Fault)
    ensures |CommitFaults(queue + [f])| == |CommitFaults(queue)| + if f.OnCommit? then 1 else 0
    decreases |queue|
  {
    if queue == [] {
      assert queue + [f] == [f] && [f][1..] == [];
    } else {
      assert (queue + [f])[1..] == queue[1..] + [f];
      FaultsAppend(queue[1..], f);
    }
  }

  lemma {:induction false} TakeReadFault(queue: seq<Fault>, op: FaultOperation)
    ensures CommitFaults(Take(queue, Some(op)).1) == CommitFaults(queue)
    decreases |queue|
  {
    if queue != [] && !Selects(Some(op), queue[0]) {
      TakeReadFault(queue[1..], op);
      var rest := Take(queue[1..], Some(op)).1;
      assert ([queue[0]] + rest)[1..] == rest;
    }
  }

  /** Among any other calls, repeats are set back at most once for each commit fault ever queued. */
  lemma {:induction false} SetbacksBounded(caps: Capabilities, w: World, cs: seq<Call>, t: Transaction)
    requires Definite(w.inner)
    ensures Setbacks(caps, w, cs, t) + |CommitFaults(Final(caps, w, cs).queue)| <= |CommitFaults(w.queue)| + Added(cs)
    decreases |cs|
  {
    if cs != [] {
      var w' := Step(caps, w, cs[0]);
      match cs[0]
      case CommitCall(u) =>
        InconclusiveDraws(caps, w, u);
        TakeCommitFault(w.queue);
        SetbacksBounded(caps, w', cs[1..], t);
      case QueueCall(f) =>
        FaultsAppend(w.queue, f);
        SetbacksBounded(caps, w', cs[1..], t);
      case ClearCall =>
        SetbacksBounded(caps, w', cs[1..], t);
      case ReadCall(op) =>
        TakeReadFault(w.queue, op);
        SetbacksBounded(caps, w', cs[1..], t);
    }
  }

  // ----- Faults are drawn in the order they were queued

  /** The queued faults meant for an operation, in order. */
  function Meant(queue: seq<Fault>, operation: Option<FaultOperation>): seq<Fault> {
    if queue == [] then []
    else (if Selects(operation, queue[0]) then [queue[0]] else []) + Meant(queue[1..], operation)
  }

  /** A fault is meant for one operation only: commits, or one kind of read. */
  function Purpose(f: Fault): Option<FaultOperation> {
    match f case OnRead(operation, _) => Some(operation) case OnCommit(_) => None
  }

  /** What a call draws for an operation, and what it queues for it. */
  function DrawnBy(w: World, c: Call, operation: Option<FaultOperation>): seq<Fault> {
    var draws := match c
      case CommitCall(t) => operation == None && t.id !in w.injected
      case ReadCall(op) => operation == Some(op)
      case _ => false;
    if draws && Take(w.queue, operation).0.Some? then [Take(w.queue, operation).0.value] else []
  }

  function QueuedBy(c: Call, operation: Option<FaultOperation>): seq<Fault> {
    if c.QueueCall? && Purpose(c.fault) == operation then [c.fault] else []
  }

  function Drawn(caps: Capabilities, w: World, cs: seq<Call>, operation: Option<FaultOperation>): seq<Fault>
    decreases |cs|
  {
    if cs == [] then [] else
      DrawnBy(w, cs[0], operation) + Drawn(caps, Step(caps, w, cs[0]), cs[1..], operation)
  }

  function Queued(cs: seq<Call>, operation: Option<FaultOperation>): seq<Fault> {
    if cs == [] then [] else QueuedBy(cs[0], operation) + Queued(cs[1..], operation)
  }

  lemma {:induction false} MeantAppend(queue: seq<Fault>, f: Fault, operation: Option<FaultOperation>)
    ensures Meant(queue + [f], operation) == Meant(queue, operation) + if Purpose(f) == operation then [f] else []
    decreases |queue|
  {
    if queue == [] {
      assert queue + [f] == [f] && [f][1..] == [];
    } else {
      assert (queue + [f])[1..] == queue[1..] + [f] && (queue + [f])[0] == queue[0];
      MeantAppend(queue[1..], f, operation);
      var first := if Selects(operation, queue[0]) then [queue[0]] else [];
      var last := if Purpose(f) == operation then [f] else [];
      assert Meant(queue + [f], operation) == first + (Meant(queue[1..], operation) + last);
      assert Meant(queue, operation) == first + Meant(queue[1..], operation);
    }
  }

  /** Taking draws the first fault meant for the operation and leaves those meant for others. */
  lemma {:induction false} TakeMeant(
    queue: seq<Fault>, operation: Option<FaultOperation>, other: Option<FaultOperation>)
    ensures var (f, rest) := Take(queue, operation);
            Meant(queue, other) ==
              (if other == operation && f.Some? then [f.value] else []) + Meant(rest, other)
    decreases |queue|
  {
    if queue != [] && !Selects(operation, queue[0]) {
      TakeMeant(queue[1..], operation, other);
      var rest := Take(queue[1..], operation).1;
      assert ([queue[0]] + rest)[1..] == rest;
    }
  }

  lemma StepInOrder(caps: Capabilities, w: World, c: Call, operation: Option<FaultOperation>)
    requires !c.ClearCall?
    ensures DrawnBy(w, c, operation) + Meant(Step(caps, w, c).queue, operation) ==
              Meant(w.queue, operation) + QueuedBy(c, operation)
  {
    match c
    case CommitCall(t) => TakeMeant(w.queue, None, operation);
    case ReadCall(op) => TakeMeant(w.queue, Some(op), operation);
    case QueueCall(f) => MeantAppend(w.queue, f, operation);
  }

  /**
   First in, first out: over any run, the faults drawn for an operation and those
   still queued for it are those queued before and those queued since, in order.
   */
  lemma {:induction false} DrawnInOrder(
    caps: Capabilities, w: World, cs: seq<Call>, operation: Option<FaultOperation>)
    requires forall i :: 0 <= i < |cs| ==> !cs[i].ClearCall?
    ensures Drawn(caps, w, cs, operation) + Meant(Final(caps, w, cs).queue, operation) ==
              Meant(w.queue, operation) + Queued(cs, operation)
    decreases |cs|
  {
    if cs != [] {
      var w' := Step(caps, w, cs[0]);
      StepInOrder(caps, w, cs[0], operation);
      DrawnInOrder(caps, w', cs[1..], operation);
      Weave(DrawnBy(w, cs[0], operation), Drawn(caps, w', cs[1..], operation),
            Meant(Final(caps, w, cs).queue, operation), Meant(w'.queue, operation), Meant(w.queue, operation),
            QueuedBy(cs[0], operation), Queued(cs[1..], operation));
    }
  }

  lemma Weave<T>(d: seq<T>, ds: seq<T>, left: seq<T>, m: seq<T>, m0: seq<T>, q: seq<T>, qs: seq<T>)
    requires ds + left == m + qs && d + m == m0 + q
    ensures (d + ds) + left == m0 + (q + qs)
  {
    assert (d + ds) + left == d + (ds + left) == (d + m) + qs == m0 + (q + qs);
  }

  // ----- The wrapper as an object

  class FaultStore {
    const inner: StoreModel
    var queue: seq<Fault>
    var injected: map<OperationId, Transaction>

    ghost function Contents(): World
      reads this, inner
    {
      World(inner.Contents(), queue, injected)
    }

    constructor (inner: StoreModel)
      ensures this.inner == inner && Contents() == World(inner.Contents(), [], map[])
    {
      this.inner := inner;
      queue := [];
      injected := map[];
    }

    method QueueFault(f: Fault)
      modifies this
      ensures Contents() == old(Contents()).(queue := old(queue) + [f])
    {
      queue := queue + [f];
    }

    method ClearFaults()
      modifies this
      ensures Contents() == old(Contents()).(queue := [])
    {
      queue := [];
    }

    method TakeFault(operation: Option<FaultOperation>) returns (f: Option<Fault>)
      modifies this
      ensures injected == old(injected)
      ensures (f, queue) == Take(old(queue), operation)
    {
      var i := 0;
      while i < |queue| && !Selects(operation, queue[i])
        invariant i <= |queue| && queue == old(queue)
        invariant forall j :: 0 <= j < i ==> !Selects(operation, queue[j])
      {
        i := i + 1;
      }
      TakeAt(queue, operation, i);
      if i == |queue| {
        f := None;
      } else {
        f := Some(queue[i]);
        queue := queue[..i] + queue[i + 1..];
      }
    }

    method Commit(t: Transaction) returns (r: Answer)
      modifies this, inner
      ensures (Contents(), r) == CommitThrough(inner.caps, old(Contents()), t)
    {
      if t.id in injected {
        return if injected[t.id] == t then Ok(Conflict) else Err(CommitOperationReused);
      }
      var fault := TakeFault(None);
      match fault {
        case None =>
          var reply := inner.Commit(t);
          r := Acknowledge(reply);
        case Some(f) =>
          match f.commit {
            case Transient(kind) => r := Err(Injected(kind));
            case InjectedConflict =>
              injected := injected[t.id := t];
              r := Ok(Conflict);
            case UnknownBeforeCommit => r := Ok(Unknown);
            case UnknownAfterCommit =>
              var reply := inner.Commit(t);
              r := Lose(Acknowledge(reply));
          }
      }
    }
  }
}
