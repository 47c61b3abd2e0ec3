/**
 The resident loop of the Tokio runtime and its cooperative shutdown: a drive,
 a wait that races a timer against a notification, and any number of
 concurrent shutdown requests, interleaved step by step.
 */
module Resident {
  // ----- How long to wait

  /** The floor of every wait, one millisecond, in nanoseconds. */
  const FLOOR := 1_000_000

  datatype Hint = Now | At(at: nat) | Whenever

  function Earliest(a: Hint, b: Hint): Hint {
    match (a, b)
    case (Now, _) => Now
    case (_, Now) => Now
    case (Whenever, _) => b
    case (_, Whenever) => a
    case (At(s), At(t)) => if s <= t then a else b
  }

  function Min(a: nat, b: nat): nat { if a <= b then a else b }
  function Max(a: nat, b: nat): nat { if a <= b then b else a }

  function WakeDelay(hint: Hint, now: nat, safety: nat): nat {
    var delay := match hint
      case Now => 0
      case At(t) => if t >= now then t - now else 0
      case Whenever => safety;
    Max(Min(delay, safety), FLOOR)
  }

  /**
   Merging hints loses nothing: the delay for the earlier of two hints is the
   shorter of their delays. It lies between the floor and the safety interval,
   and within them a wake time is met exactly.
   */
  lemma WakeDelayBounds(a: Hint, b: Hint, now: nat, safety: nat)
    ensures WakeDelay(Earliest(a, b), now, safety) == Min(WakeDelay(a, now, safety), WakeDelay(b, now, safety))
    ensures FLOOR <= WakeDelay(a, now, safety) <= Max(safety, FLOOR)
    ensures a.At? && now + FLOOR <= a.at <= now + safety ==> now + WakeDelay(a, now, safety) == a.at
    ensures Earliest(a, b) == Earliest(b, a) || (a.At? && b.At? && a.at == b.at)
  {
  }

  // ----- The loop and its shutdown

  /**
   The resident loop. `Parked` is registered with the notifier, and `told` once
   the notifier chose it; `Selecting` has not registered yet.
   */
  datatype Phase =
    | Top
    | Driving
    | Unchecked
    | Checked
    | Sleeping
    | Selecting
    | Parked(told: bool)
    | Woken
    | Returned(ok: bool)

  /** One `request_shutdown` call, by what it has done so far. */
  datatype Requester = Entered | Flagged | Signalled | Finished

  /** `requested` is the runtime's flag, `engine` the engine's, `permit` the notifier's stored permit. */
  datatype World = World(
    phase: Phase, requested: bool, engine: bool, permit: bool, requesters: seq<Requester>)

  datatype DriveEnd = Stopped | Reported | Recoverable | Fatal

  /** A step of the loop; a timer may fire in the same poll that would take the permit. */
  datatype Step =
    | Drive
    | EndDrive(end: DriveEnd)
    | Check
    | MakeSleep(available: bool)
    | TakePermit
    | Park
    | Fire
    | Hear

  datatype Action = Loop(s: Step) | Enter | Advance(r: nat) | ClearEngine

  predicate CanStep(w: World, s: Step) {
    match s
    case Drive => w.phase.Top?
    case EndDrive(end) => w.phase.Driving? && (end.Stopped? ==> w.engine)
    case Check => w.phase.Unchecked? || w.phase.Sleeping? || w.phase.Woken?
    case MakeSleep(_) => w.phase.Checked?
    case TakePermit => w.phase.Selecting? && w.permit
    case Park => w.phase.Selecting? && !w.permit
    case Fire => w.phase.Selecting? || w.phase.Parked?
    case Hear => w.phase == Parked(true)
  }

  predicate Enabled(w: World, a: Action) {
    match a
    case Loop(s) => CanStep(w, s)
    case Advance(r) => r < |w.requesters| && !w.requesters[r].Finished?
    case _ => true
  }

  function LoopStep(w: World, s: Step): World
    requires CanStep(w, s)
  {
    match s
    case Drive => w.(phase := Driving)
    case EndDrive(Stopped) => w.(phase := Returned(true))
    case EndDrive(Fatal) => w.(phase := Returned(false))
    case EndDrive(_) => w.(phase := Unchecked)
    case Check =>
      w.(phase := if w.requested then Returned(true)
                  else if w.phase.Unchecked? then Checked
                  else if w.phase.Sleeping? then Selecting
                  else Top)
    case MakeSleep(available) => w.(phase := if available then Sleeping else Returned(false))
    case TakePermit => w.(phase := Returned(true), permit := false)
    case Park => w.(phase := Parked(false))
    case Fire => w.(phase := Woken, permit := w.permit || w.phase == Parked(true))
    case Hear => w.(phase := Returned(true))
  }

  /** Flag, then engine, then notification: to the parked loop, or else as a stored permit. */
  function RequestStep(w: World, r: nat): World
    requires r < |w.requesters| && !w.requesters[r].Finished?
  {
    match w.requesters[r]
    case Entered => w.(requesters := w.requesters[r := Flagged], requested := true)
    case Flagged => w.(requesters := w.requesters[r := Signalled], engine := true)
    case Signalled =>
      if w.phase.Parked? && !w.phase.told
      then w.(requesters := w.requesters[r := Finished], phase := Parked(true))
      else w.(requesters := w.requesters[r := Finished], permit := true)
  }

  function Act(w: World, a: Action): World
    requires Enabled(w, a)
  {
    match a
    case Loop(s) => LoopStep(w, s)
    case Enter => w.(requesters := w.requesters + [Entered])
    case Advance(r) => RequestStep(w, r)
    case ClearEngine => w.(engine := false)
  }

  predicate Init(w: World) {
    w == World(Top, false, false, false, [])
  }

  ghost predicate Behavior(ws: seq<World>, acts: seq<Action>) {
    && |ws| == |acts| + 1 && Init(ws[0])
    && forall i :: 0 <= i < |acts| ==> Enabled(ws[i], acts[i]) && ws[i + 1] == Act(ws[i], acts[i])
  }

  predicate Completed(w: World) {
    exists r :: 0 <= r < |w.requesters| && w.requesters[r] == Finished
  }

  predicate Inv(w: World) {
    && (forall r :: 0 <= r < |w.requesters| && w.requesters[r] != Entered ==> w.requested)
    && (w.engine || w.permit || w.phase == Parked(true) || w.phase == Returned(true) ==> w.requested)
    && (w.phase == Parked(false) ==> !w.permit)
    && (Completed(w) ==> w.permit || w.phase == Parked(true) || w.phase.Returned?)
  }

  lemma StepKeeps(w: World, a: Action)
    requires Inv(w) && Enabled(w, a)
    ensures Inv(Act(w, a))
    ensures w.requested ==> Act(w, a).requested
  {
  }

  lemma {:induction false} InvAlways(ws: seq<World>, acts: seq<Action>, i: nat)
    requires Behavior(ws, acts) && i < |ws|
    ensures Inv(ws[i])
  {
    if i > 0 {
      InvAlways(ws, acts, i - 1);
      StepKeeps(ws[i - 1], acts[i - 1]);
    }
  }

  /** The loop ends in shutdown only after one was requested. */
  lemma ShutdownOnlyIfRequested(ws: seq<World>, acts: seq<Action>, i: nat)
    requires Behavior(ws, acts) && i < |ws| && ws[i].phase == Returned(true)
    ensures ws[i].requested
  {
    InvAlways(ws, acts, i);
  }

  /**
   No lost wakeup: whatever the interleaving, once a shutdown request has
   completed the loop is not parked unheard, and always has a step that needs
   no timer; only a drive in progress has to end by itself.
   */
  lemma NeverParkedAfterShutdown(ws: seq<World>, acts: seq<Action>, i: nat) returns (s: Step)
    requires Behavior(ws, acts) && i < |ws| && Completed(ws[i])
    ensures ws[i].phase != Parked(false) && ws[i].requested
    ensures !ws[i].phase.Returned? ==> CanStep(ws[i], s) && !s.Fire?
  {
    InvAlways(ws, acts, i);
    s := match ws[i].phase
      case Top => Drive
      case Driving => EndDrive(Reported)
      case Checked => MakeSleep(true)
      case Selecting => TakePermit
      case Parked(_) => Hear
      case _ => Check;
  }

  /** How many steps the loop can still take once shutdown was requested. */
  function Rank(p: Phase): nat {
    match p
    case Returned(_) => 0
    case Unchecked => 1
    case Sleeping => 1
    case Woken => 1
    case Driving => 2
    case Checked => 2
    case Parked(_) => 2
    case Top => 3
    case Selecting => 3
  }

  function Steps(acts: seq<Action>): nat {
    if acts == [] then 0 else (if acts[0].Loop? then 1 else 0) + Steps(acts[1..])
  }

  function Drives(acts: seq<Action>): nat {
    if acts == [] then 0 else (if acts[0] == Loop(Drive) then 1 else 0) + Drives(acts[1..])
  }

  ghost predicate RequestedRun(ws: seq<World>, acts: seq<Action>) {
    && |ws| == |acts| + 1 && ws[0].requested
    && forall i :: 0 <= i < |acts| ==> Enabled(ws[i], acts[i]) && ws[i + 1] == Act(ws[i], acts[i])
  }

  lemma RequestedStep(w: World, a: Action)
    requires Enabled(w, a) && w.requested
    ensures Act(w, a).requested
    ensures Rank(Act(w, a).phase) + (if a.Loop? then 1 else 0) <= Rank(w.phase)
    ensures Act(w, a).phase.Top? ==> w.phase.Top? && !a.Loop?
  {
  }

  /**
   From the moment the flag is set, wherever the loop stands, it starts at most
   one more drive, and only if it was about to; it returns after at most three
   more steps of its own, and nothing it meets prolongs that.
   */
  lemma {:induction false} DrivesAtMostOnce(ws: seq<World>, acts: seq<Action>)
    requires RequestedRun(ws, acts)
    ensures Drives(acts) <= if ws[0].phase.Top? then 1 else 0
    ensures Steps(acts) + Rank(ws[|acts|].phase) <= Rank(ws[0].phase) <= 3
    ensures Steps(acts) == 3 ==> ws[|acts|].phase.Returned?
    decreases |acts|
  {
    if acts != [] {
      RequestedStep(ws[0], acts[0]);
      DrivesAtMostOnce(ws[1..], acts[1..]);
    }
  }

  // ----- Until then the loop goes on

  /** The loop gave up: a permanent drive error, or no timer to wait with. */
  predicate GivesUp(a: Action) {
    a == Loop(EndDrive(Fatal)) || a == Loop(MakeSleep(false))
  }

  /**
   The loop ends in an error iff a drive failed for good or no timer was to be
   had; recoverable errors never end it.
   */
  lemma {:induction false} ErrorIff(ws: seq<World>, acts: seq<Action>, i: nat)
    requires Behavior(ws, acts) && i < |ws|
    ensures ws[i].phase == Returned(false) <==> exists k :: 0 <= k < i && GivesUp(acts[k])
  {
    if i > 0 {
      ErrorIff(ws, acts, i - 1);
      assert ws[i] == Act(ws[i - 1], acts[i - 1]);
      if GivesUp(acts[i - 1]) { assert GivesUp(acts[i - 1]); }
    }
  }

  /** How many steps an undisturbed loop is from its next drive. */
  function Distance(p: Phase): nat
    requires !p.Returned?
  {
    match p
    case Top => 1
    case Woken => 2
    case Parked(_) => 3
    case Selecting => 4
    case Sleeping => 5
    case Checked => 6
    case Unchecked => 7
    case Driving => 8
  }

  /** While no shutdown is requested a loop that has not returned comes back to driving. */
  lemma {:induction false} DrivesAgain(w: World) returns (ws: seq<World>, ss: seq<Step>)
    requires !w.requested && !w.phase.Returned?
    ensures |ws| == |ss| + 1 && ws[0] == w && 0 < |ss| <= 8 && ss[|ss| - 1] == Drive
    ensures forall i :: 0 <= i < |ss| ==> CanStep(ws[i], ss[i]) && ws[i + 1] == LoopStep(ws[i], ss[i])
    ensures |ss| <= Distance(w.phase)
    decreases Distance(w.phase)
  {
    var s := match w.phase
      case Top => Drive
      case Driving => EndDrive(Recoverable)
      case Checked => MakeSleep(true)
      case Selecting => Fire
      case Parked(_) => Fire
      case _ => Check;
    var w' := LoopStep(w, s);
    if w.phase.Top? {
      ws, ss := [w, w'], [s];
    } else {
      ws, ss := DrivesAgain(w');
      ws, ss := [w] + ws, [s] + ss;
    }
  }

  /** A request that has signalled the engine leaves its flag set until somebody clears it. */
  lemma {:induction false} EngineTold(ws: seq<World>, acts: seq<Action>, i: nat, r: nat)
    requires Behavior(ws, acts) && i < |ws| && (forall k :: 0 <= k < i ==> acts[k] != ClearEngine)
    requires r < |ws[i].requesters| && (ws[i].requesters[r].Signalled? || ws[i].requesters[r].Finished?)
    ensures ws[i].engine
  {
    assert i > 0 && ws[i] == Act(ws[i - 1], acts[i - 1]);
    if acts[i - 1] != Advance(r) || ws[i - 1].requesters[r].Signalled? { EngineTold(ws, acts, i - 1, r); }
  }

  /** A drive that reports shutdown is the last thing the loop does. */
  lemma {:induction false} StoppedIsLast(ws: seq<World>, acts: seq<Action>, s: nat, i: nat)
    requires Behavior(ws, acts) && s < i < |ws| && acts[s] == Loop(EndDrive(Stopped))
    ensures ws[i].phase == Returned(true) && (i < |acts| ==> !acts[i].Loop?)
    decreases i
  {
    if i > s + 1 { StoppedIsLast(ws, acts, s, i - 1); }
    assert ws[i] == Act(ws[i - 1], acts[i - 1]);
  }

  predicate Waits(p: Phase) {
    p.Sleeping? || p.Selecting? || p.Parked? || p.Woken?
  }

  /** The loop never waits without a timer made since its last drive. */
  lemma {:induction false} TimerBeforeWait(ws: seq<World>, acts: seq<Action>, i: nat) returns (s: nat)
    requires Behavior(ws, acts) && i < |ws| && Waits(ws[i].phase)
    ensures s < i && acts[s] == Loop(MakeSleep(true)) && forall k :: s < k < i ==> acts[k] != Loop(Drive)
  {
    assert i > 0 && ws[i] == Act(ws[i - 1], acts[i - 1]);
    if Waits(ws[i - 1].phase) {
      s := TimerBeforeWait(ws, acts, i - 1);
    } else {
      s := i - 1;
    }
  }
}
