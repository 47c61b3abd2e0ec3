/**
 The bounded queue consumer: a fixed set of workers, each receiving a leased
 delivery, executing it under lease renewals and settling its outcome, until a
 watch channel says stop. A run interleaves single steps of all workers.
 */
module QueueConsumer {
  import opened Collections
  import opened Wrappers

  type Worker = nat
  type Delivery = nat
  type Outcome = nat

  /** Where one worker's loop stands; a renewal suspends the polling of the operation. */
  datatype Phase =
    | Top
    | Receiving
    | BackingOff
    | Got(d: Delivery)
    | Cleared(d: Delivery)
    | Executing(d: Delivery)
    | Renewing(d: Delivery)
    | Settling(d: Delivery, outcome: Outcome)
    | Exited

  /** What has happened to one delivery; `returned` is what its handler returned, when it did. */
  datatype Track = Track(
    worker: Worker, begun: nat, lost: bool, returned: Option<Option<Outcome>>, settled: seq<Outcome>)

  /** `stop` is the watch value; `closed` says its sender is gone. */
  datatype World = World(
    phases: seq<Phase>, tracks: seq<Track>, stop: bool, closed: bool, aborted: bool)

  datatype Receipt = Nothing | Message | Failure

  /** One step of a worker's loop. */
  datatype Step =
    | CheckTop
    | SeeStop
    | Receive(receipt: Receipt)
    | WakeUp
    | CheckAgain
    | Begin
    | StartRenewal
    | EndRenewal(kept: bool)
    | Return(result: Option<Outcome>)
    | Settle

  datatype Action = Own(w: Worker, s: Step) | Send(stop: bool) | Close | Abort

  predicate Stopping(w: World) {
    w.stop || w.closed
  }

  /** The delivery a worker has in hand. */
  predicate Handles(p: Phase, d: Delivery) {
    match p
    case Got(e) => d == e
    case Cleared(e) => d == e
    case Executing(e) => d == e
    case Renewing(e) => d == e
    case Settling(e, _) => d == e
    case _ => false
  }

  predicate HandlesSome(p: Phase) {
    p.Got? || p.Cleared? || p.Executing? || p.Renewing? || p.Settling?
  }

  /** The step is one the worker's code can take where it stands. */
  predicate Matches(p: Phase, s: Step) {
    match s
    case CheckTop => p.Top?
    case SeeStop => p.Receiving? || p.BackingOff?
    case Receive(_) => p.Receiving?
    case WakeUp => p.BackingOff?
    case CheckAgain => p.Got?
    case Begin => p.Cleared?
    case StartRenewal => p.Executing?
    case EndRenewal(_) => p.Renewing?
    case Return(_) => p.Executing?
    case Settle => p.Settling?
  }

  predicate CanStep(w: World, k: Worker, s: Step) {
    && k < |w.phases| && Matches(w.phases[k], s) && (s.SeeStop? ==> Stopping(w))
    && (HandlesSome(w.phases[k]) ==> w.phases[k].d < |w.tracks|)
  }

  predicate Enabled(w: World, a: Action) {
    match a
    case Own(k, s) => CanStep(w, k, s)
    case Send(_) => !w.closed
    case _ => true
  }

  /** Where a worker's step takes it; `next` names the delivery a receive would yield. */
  function Next(stopping: bool, next: Delivery, p: Phase, s: Step): Phase
    requires Matches(p, s)
  {
    match s
    case CheckTop => if stopping then Exited else Receiving
    case SeeStop => Exited
    case Receive(Nothing) => Top
    case Receive(Failure) => BackingOff
    case Receive(Message) => Got(next)
    case WakeUp => Top
    case CheckAgain => if stopping then Exited else Cleared(p.d)
    case Begin => Executing(p.d)
    case StartRenewal => Renewing(p.d)
    case EndRenewal(kept) => if kept then Executing(p.d) else Top
    case Return(Some(outcome)) => Settling(p.d, outcome)
    case Return(None) => Top
    case Settle => Top
  }

  /** What a worker's step does to the record of the delivery it holds. */
  function Record(t: Track, p: Phase, s: Step): Track
    requires Matches(p, s)
  {
    match s
    case Begin => t.(begun := t.begun + 1)
    case EndRenewal(kept) => if kept then t else t.(lost := true)
    case Return(result) => t.(returned := Some(result))
    case Settle => t.(settled := t.settled + [p.outcome])
    case _ => t
  }

  function OwnStep(w: World, k: Worker, s: Step): World
    requires CanStep(w, k, s)
  {
    var p := w.phases[k];
    w.(phases := w.phases[k := Next(Stopping(w), |w.tracks|, p, s)],
       tracks := if s == Receive(Message) then w.tracks + [Track(k, 0, false, None, [])]
                 else if HandlesSome(p) then w.tracks[p.d := Record(w.tracks[p.d], p, s)]
                 else w.tracks)
  }

  function Act(w: World, a: Action): World
    requires Enabled(w, a)
  {
    match a
    case Own(k, s) => OwnStep(w, k, s)
    case Send(stop) => w.(stop := stop)
    case Close => w.(closed := true)
    case Abort => w.(phases := seq(|w.phases|, k => Exited), aborted := true)
  }

  predicate Init(w: World) {
    (forall k :: 0 <= k < |w.phases| ==> w.phases[k] == Top) && w.tracks == [] && !w.aborted
  }

  ghost predicate Behavior(ws: seq<World>, acts: seq<Action>) {
    && |ws| == |acts| + 1 && Init(ws[0])
    && forall i :: 0 <= i < |acts| ==> Enabled(ws[i], acts[i]) && ws[i + 1] == Act(ws[i], acts[i])
  }

  // ----- Settlement

  /** What the record of a delivery must say while its worker is in a phase that handles it. */
  predicate Underway(p: Phase, t: Track)
    requires HandlesSome(p)
  {
    && t.settled == [] && !t.lost
    && t.begun == (if p.Got? || p.Cleared? then 0 else 1)
    && t.returned == if p.Settling? then Some(Some(p.outcome)) else None
  }

  /**
   A delivery its worker is done with was, once begun, given up only for a lost
   lease or a returned handler, and settled with what the handler returned.
   */
  predicate Done(t: Track) {
    && t.begun <= 1
    && (t.returned.Some? ==> t.begun == 1 && !t.lost)
    && (t.lost ==> t.begun == 1)
    && (t.begun == 1 ==> t.lost || t.returned.Some?)
    && t.settled == match t.returned
                    case Some(Some(o)) => [o]
                    case _ => []
  }

  /** A settlement is of an outcome the one execution returned, under a lease never lost. */
  predicate Honest(t: Track) {
    t.settled != [] ==> t.begun == 1 && !t.lost && t.returned == Some(Some(t.settled[0])) && |t.settled| == 1
  }

  predicate DeliveryInv(w: World, d: Delivery)
    requires d < |w.tracks|
  {
    var t := w.tracks[d];
    && t.worker < |w.phases|
    && t.begun <= 1 && Honest(t)
    && (if Handles(w.phases[t.worker], d) then Underway(w.phases[t.worker], t)
        else w.aborted || (Done(t) && (t.begun == 0 ==> w.phases[t.worker].Exited?)))
  }

  predicate WorkerInv(w: World, k: Worker)
    requires k < |w.phases|
  {
    HandlesSome(w.phases[k]) ==> w.phases[k].d < |w.tracks| && w.tracks[w.phases[k].d].worker == k
  }

  ghost predicate Inv(w: World) {
    && (forall k :: 0 <= k < |w.phases| ==> WorkerInv(w, k))
    && (forall d :: 0 <= d < |w.tracks| ==> DeliveryInv(w, d))
  }

  /** A worker's step carries the delivery it holds on, or is done with it. */
  lemma StepCarries(stopping: bool, next: Delivery, p: Phase, t: Track, s: Step)
    requires Matches(p, s) && HandlesSome(p) && Underway(p, t)
    ensures var p', t' := Next(stopping, next, p, s), Record(t, p, s);
            t'.begun <= 1 && Honest(t') && t'.worker == t.worker &&
            if HandlesSome(p') then p'.d == p.d && Underway(p', t')
            else Done(t') && (t'.begun == 0 ==> p'.Exited? && stopping)
  {
  }

  /** A worker that holds nothing takes up at most the delivery it has just received. */
  lemma StepTakes(stopping: bool, next: Delivery, p: Phase, s: Step)
    requires Matches(p, s) && !HandlesSome(p)
    ensures HandlesSome(Next(stopping, next, p, s)) ==> s == Receive(Message) && Next(stopping, next, p, s) == Got(next)
    ensures s == Receive(Message) ==> Next(stopping, next, p, s) == Got(next)
  {
  }

  lemma OwnStepKeeps(w: World, k: Worker, s: Step)
    requires Inv(w) && CanStep(w, k, s)
    ensures Inv(OwnStep(w, k, s))
  {
    var w', p := OwnStep(w, k, s), w.phases[k];
    assert WorkerInv(w, k);
    if HandlesSome(p) {
      assert DeliveryInv(w, p.d);
      StepCarries(Stopping(w), |w.tracks|, p, w.tracks[p.d], s);
      assert s != Receive(Message);
    } else {
      StepTakes(Stopping(w), |w.tracks|, p, s);
    }
    forall j | 0 <= j < |w'.phases| ensures WorkerInv(w', j) {
      assert WorkerInv(w, j);
    }
    forall d | 0 <= d < |w'.tracks| ensures DeliveryInv(w', d) {
      if d < |w.tracks| { assert DeliveryInv(w, d); }
    }
  }

  lemma StepKeeps(w: World, a: Action)
    requires Inv(w) && Enabled(w, a)
    ensures Inv(Act(w, a)) && |Act(w, a).phases| == |w.phases|
  {
    if a.Own? {
      OwnStepKeeps(w, a.w, a.s);
    } else {
      forall d | 0 <= d < |w.tracks| ensures DeliveryInv(Act(w, a), d) { assert DeliveryInv(w, d); }
      forall k | 0 <= k < |w.phases| ensures WorkerInv(Act(w, a), k) { assert WorkerInv(w, k); }
    }
  }

  lemma {:induction false} InvAlways(ws: seq<World>, acts: seq<Action>, i: nat)
    requires Behavior(ws, acts) && i < |ws|
    ensures Inv(ws[i]) && |ws[i].phases| == |ws[0].phases|
  {
    if i > 0 {
      InvAlways(ws, acts, i - 1);
      StepKeeps(ws[i - 1], acts[i - 1]);
    }
  }

  /**
   In every reachable state each delivery was executed at most once and settled
   at most once, a settlement carries what that execution returned and its lease
   was never lost; and unless the consumer was dropped, a delivery no worker
   holds any more was executed until it returned or its lease was lost, or its
   worker has exited, and was settled exactly when its execution returned an
   outcome.
   */
  lemma SettledExactly(ws: seq<World>, acts: seq<Action>, i: nat, d: Delivery)
    requires Behavior(ws, acts) && i < |ws| && d < |ws[i].tracks|
    ensures ws[i].tracks[d].begun <= 1 && Honest(ws[i].tracks[d])
    ensures !ws[i].aborted && !(exists k :: 0 <= k < |ws[i].phases| && Handles(ws[i].phases[k], d)) ==>
              Done(ws[i].tracks[d]) &&
              ws[i].tracks[d].worker < |ws[i].phases| &&
              (ws[i].tracks[d].begun == 0 ==> ws[i].phases[ws[i].tracks[d].worker].Exited?)
  {
    InvAlways(ws, acts, i);
    assert DeliveryInv(ws[i], d);
  }

  /** No two workers ever hold the same delivery. */
  lemma OneWorkerPerDelivery(ws: seq<World>, acts: seq<Action>, i: nat, d: Delivery, j: Worker, k: Worker)
    requires Behavior(ws, acts) && i < |ws| && j < |ws[i].phases| && k < |ws[i].phases|
    requires Handles(ws[i].phases[j], d) && Handles(ws[i].phases[k], d)
    ensures j == k
  {
    InvAlways(ws, acts, i);
    assert WorkerInv(ws[i], j) && WorkerInv(ws[i], k);
  }

  lemma {:induction false} HeldAtMost(phases: seq<Phase>, ds: set<Delivery>)
    requires forall d :: d in ds ==> exists k :: 0 <= k < |phases| && Handles(phases[k], d)
    ensures |ds| <= |phases|
    decreases |phases|
  {
    if phases == [] {
      assert forall d :: d !in ds;
      assert ds == {};
    } else {
      var n := |phases| - 1;
      var rest := set d | d in ds && !Handles(phases[n], d);
      HeldAtMost(phases[..n], rest);
      if HandlesSome(phases[n]) {
        assert ds <= rest + {phases[n].d};
        SubsetCount(ds, rest + {phases[n].d});
      } else {
        assert ds == rest;
      }
    }
  }

  /** Bounded concurrency: never more deliveries in hand than workers were started. */
  lemma BoundedConcurrency(ws: seq<World>, acts: seq<Action>, i: nat, ds: set<Delivery>)
    requires Behavior(ws, acts) && i < |ws|
    requires forall d :: d in ds ==> exists k :: 0 <= k < |ws[i].phases| && Handles(ws[i].phases[k], d)
    ensures |ds| <= |ws[0].phases|
  {
    InvAlways(ws, acts, i);
    HeldAtMost(ws[i].phases, ds);
  }

  // ----- Work goes on

  /** The consumer has not been told to stop before step `i`. */
  ghost predicate Untold(ws: seq<World>, i: nat)
    requires i <= |ws|
  {
    forall j :: 0 <= j < i ==> !Stopping(ws[j])
  }

  /** No worker exits, and so no delivery is passed over, unless it was told to stop or dropped. */
  lemma {:induction false} NoExitUntold(ws: seq<World>, acts: seq<Action>, i: nat, k: Worker)
    requires Behavior(ws, acts) && i < |ws| && Untold(ws, i) && !ws[i].aborted && k < |ws[i].phases|
    ensures !ws[i].phases[k].Exited?
  {
    if i > 0 {
      InvAlways(ws, acts, i);
      InvAlways(ws, acts, i - 1);
      assert !ws[i - 1].aborted;
      NoExitUntold(ws, acts, i - 1, k);
    }
  }

  /** After a failed receive a worker pauses: whatever it does next but exit, it has woken from the pause first. */
  lemma {:induction false} PauseAfterFailure(ws: seq<World>, acts: seq<Action>, s: nat, i: nat, k: Worker)
      returns (j: nat)
    requires Behavior(ws, acts) && s < i < |ws| && acts[s] == Own(k, Receive(Failure))
    requires k < |ws[i].phases| && !ws[i].phases[k].BackingOff? && !ws[i].phases[k].Exited?
    ensures s < j < i && acts[j] == Own(k, WakeUp)
    decreases i
  {
    InvAlways(ws, acts, i);
    InvAlways(ws, acts, i - 1);
    InvAlways(ws, acts, s);
    assert ws[i] == Act(ws[i - 1], acts[i - 1]);
    if acts[i - 1] == Own(k, WakeUp) {
      j := i - 1;
    } else {
      j := PauseAfterFailure(ws, acts, s, i - 1, k);
    }
  }

  /** An empty receive is followed by the next one at once. */
  lemma EmptyReceiveGoesOn(ws: seq<World>, acts: seq<Action>, i: nat, k: Worker)
    requires Behavior(ws, acts) && i < |acts| && acts[i] == Own(k, Receive(Nothing)) && !Stopping(ws[i])
    ensures CanStep(ws[i + 1], k, CheckTop)
    ensures CanStep(OwnStep(ws[i + 1], k, CheckTop), k, Receive(Message))
  {
  }

  /** When the sender is gone the consumer is stopping for good; a sent stop holds until it is taken back. */
  lemma {:induction false} StopsWhenClosed(ws: seq<World>, acts: seq<Action>, s: nat, i: nat)
    requires Behavior(ws, acts) && s < i < |ws|
    requires acts[s] == Close || (acts[s] == Send(true) && forall j :: s < j < i ==> acts[j] != Send(false))
    ensures Stopping(ws[i]) && (acts[s] == Close ==> ws[i].closed) && (acts[s] == Send(true) ==> ws[i].stop)
    decreases i
  {
    if i > s + 1 { StopsWhenClosed(ws, acts, s, i - 1); }
    assert ws[i] == Act(ws[i - 1], acts[i - 1]);
  }

  // ----- Shutdown

  /** How many steps other than renewals a worker can still take once the consumer is stopping. */
  function Rank(p: Phase): nat {
    match p
    case Exited => 0
    case Top => 1
    case Settling(_, _) => 2
    case Executing(_) => 3
    case Renewing(_) => 3
    case Cleared(_) => 4
    case Got(_) => 1
    case BackingOff => 2
    case Receiving => 3
  }

  predicate Renewal(s: Step) {
    s == StartRenewal || s == EndRenewal(true)
  }

  /** The steps worker `k` takes among `acts`, renewals aside. */
  function Steps(acts: seq<Action>, k: Worker): nat {
    if acts == [] then 0
    else (if acts[0].Own? && acts[0].w == k && !Renewal(acts[0].s) then 1 else 0) + Steps(acts[1..], k)
  }

  function Begins(acts: seq<Action>, k: Worker): nat {
    if acts == [] then 0 else (if acts[0] == Own(k, Begin) then 1 else 0) + Begins(acts[1..], k)
  }

  /** A suffix of a run throughout which the consumer is stopping. */
  ghost predicate StoppingRun(ws: seq<World>, acts: seq<Action>) {
    && |ws| == |acts| + 1
    && (forall i :: 0 <= i < |acts| ==> Enabled(ws[i], acts[i]) && ws[i + 1] == Act(ws[i], acts[i]))
    && (forall i :: 0 <= i < |acts| ==> Stopping(ws[i]))
  }

  lemma StoppingStep(w: World, a: Action, k: Worker)
    requires Enabled(w, a) && Stopping(w) && k < |w.phases|
    ensures |Act(w, a).phases| == |w.phases|
    ensures Rank(Act(w, a).phases[k]) + Steps([a], k) <= Rank(w.phases[k])
    ensures Begins([a], k) + (if Act(w, a).phases[k].Cleared? then 1 else 0) <=
              if w.phases[k].Cleared? then 1 else 0
    ensures Act(w, a).phases[k].Receiving? ==> w.phases[k].Receiving?
  {
  }

  /**
   Once the consumer is stopping and stays so, no worker calls receive again;
   a worker begins at most one more execution, and only one it had already
   cleared; and it exits within four steps of its own, lease renewals aside.
   */
  lemma {:induction false} Drains(ws: seq<World>, acts: seq<Action>, k: Worker)
    requires StoppingRun(ws, acts) && k < |ws[0].phases|
    ensures |ws[|acts|].phases| == |ws[0].phases|
    ensures Begins(acts, k) <= if ws[0].phases[k].Cleared? then 1 else 0
    ensures Steps(acts, k) + Rank(ws[|acts|].phases[k]) <= Rank(ws[0].phases[k]) <= 4
    ensures Steps(acts, k) == 4 ==> ws[|acts|].phases[k].Exited?
    ensures ws[|acts|].phases[k].Receiving? ==> ws[0].phases[k].Receiving?
    decreases |acts|
  {
    if acts != [] {
      StoppingStep(ws[0], acts[0], k);
      Drains(ws[1..], acts[1..], k);
      if ws[1].phases[k].Cleared? { assert ws[0].phases[k].Cleared?; }
    }
  }

  /** A stopping worker is never stuck: one that has not exited has a step to take. */
  lemma NeverStuck(ws: seq<World>, acts: seq<Action>, i: nat, k: Worker) returns (s: Step)
    requires Behavior(ws, acts) && i < |ws| && k < |ws[i].phases|
    requires Stopping(ws[i]) && !ws[i].phases[k].Exited?
    ensures CanStep(ws[i], k, s) && (Renewal(s) ==> ws[i].phases[k].Renewing?)
  {
    InvAlways(ws, acts, i);
    assert WorkerInv(ws[i], k);
    s := match ws[i].phases[k]
      case Top => CheckTop
      case Receiving => SeeStop
      case BackingOff => SeeStop
      case Got(_) => CheckAgain
      case Cleared(_) => Begin
      case Executing(_) => Return(None)
      case Renewing(_) => EndRenewal(true)
      case _ => Settle;
  }
}
