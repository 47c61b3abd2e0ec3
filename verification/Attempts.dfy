/**
 Attempt registration racing cooperative shutdown. Each atomic access to the
 shutdown flag, the registry lock and a cancellation token is one step, and the
 steps of any number of registrations and shutdown requests interleave freely.
 */
module Attempts {
  type Authority = nat
  type Token = nat
  type RequestId = nat

  /** One registration: insert, refresh, read the flag, signal when it is set. */
  datatype Phase =
    | Idle
    | Inserted
    | Refreshed
    | MustSignal
    | Signalling(pending: set<Token>)
    | Registered
    | Dropped

  /** One shutdown request: set the flag, then signal a snapshot of the registry. */
  datatype Request = Begun | FlagSet | SignallingAll(pending: set<Token>) | Finished

  datatype World = World(
    flag: bool, active: map<Authority, Token>, cancelled: set<Token>,
    attempts: map<Authority, Phase>, requests: map<RequestId, Request>)

  datatype Refresh = NoMarker | Marker | Failed

  datatype Action =
    | Insert(a: Authority)
    | RefreshAttempt(a: Authority, outcome: Refresh)
    | ReadFlag(a: Authority)
    | SnapshotFor(a: Authority)
    | CancelFor(a: Authority, t: Token)
    | FinishRegister(a: Authority)
    | DropGuard(a: Authority)
    | SetFlag(r: RequestId)
    | SnapshotAll(r: RequestId)
    | CancelAll(r: RequestId, t: Token)
    | FinishRequest(r: RequestId)
    | CancelElsewhere(t: Token)
    | ClearFlag

  function PhaseOf(w: World, a: Authority): Phase {
    if a in w.attempts then w.attempts[a] else Idle
  }

  function RequestOf(w: World, r: RequestId): Request {
    if r in w.requests then w.requests[r] else Begun
  }

  /** The registration guard exists and has not been dropped. */
  predicate Live(p: Phase) {
    !p.Idle? && !p.Dropped?
  }

  predicate Enabled(w: World, x: Action) {
    match x
    case Insert(a) => PhaseOf(w, a).Idle?
    case RefreshAttempt(a, _) => PhaseOf(w, a).Inserted?
    case ReadFlag(a) => PhaseOf(w, a).Refreshed?
    case SnapshotFor(a) => PhaseOf(w, a).MustSignal?
    case CancelFor(a, t) => PhaseOf(w, a).Signalling? && t in PhaseOf(w, a).pending
    case FinishRegister(a) => PhaseOf(w, a) == Signalling({})
    case DropGuard(a) => PhaseOf(w, a).Registered?
    case SetFlag(r) => RequestOf(w, r).Begun?
    case SnapshotAll(r) => RequestOf(w, r).FlagSet?
    case CancelAll(r, t) => RequestOf(w, r).SignallingAll? && t in RequestOf(w, r).pending
    case FinishRequest(r) => RequestOf(w, r) == SignallingAll({})
    case CancelElsewhere(_) => true
    case ClearFlag => true
  }

  /** Every authority registers its own claim's token. */
  function Act(tok: Authority -> Token, w: World, x: Action): World
    requires Enabled(w, x)
  {
    match x
    case Insert(a) => w.(active := w.active[a := tok(a)], attempts := w.attempts[a := Inserted])
    case RefreshAttempt(a, outcome) =>
      (match outcome
       case NoMarker => w.(attempts := w.attempts[a := Refreshed])
       case Marker =>
         w.(attempts := w.attempts[a := Refreshed],
            cancelled := if a in w.active then w.cancelled + {w.active[a]} else w.cancelled)
       case Failed => w.(attempts := w.attempts[a := Dropped], active := w.active - {a}))
    case ReadFlag(a) => w.(attempts := w.attempts[a := if w.flag then MustSignal else Registered])
    case SnapshotFor(a) => w.(attempts := w.attempts[a := Signalling(w.active.Values)])
    case CancelFor(a, t) =>
      w.(attempts := w.attempts[a := Signalling(PhaseOf(w, a).pending - {t})], cancelled := w.cancelled + {t})
    case FinishRegister(a) => w.(attempts := w.attempts[a := Registered])
    case DropGuard(a) => w.(attempts := w.attempts[a := Dropped], active := w.active - {a})
    case SetFlag(r) => w.(flag := true, requests := w.requests[r := FlagSet])
    case SnapshotAll(r) => w.(requests := w.requests[r := SignallingAll(w.active.Values)])
    case CancelAll(r, t) =>
      w.(requests := w.requests[r := SignallingAll(RequestOf(w, r).pending - {t})], cancelled := w.cancelled + {t})
    case FinishRequest(r) => w.(requests := w.requests[r := Finished])
    case CancelElsewhere(t) => w.(cancelled := w.cancelled + {t})
    case ClearFlag => w.(flag := false)
  }

  predicate Init(w: World) {
    !w.flag && w.active == map[] && w.attempts == map[] && w.requests == map[]
  }

  ghost predicate Behavior(tok: Authority -> Token, ws: seq<World>, xs: seq<Action>) {
    && |ws| == |xs| + 1 && Init(ws[0])
    && forall i :: 0 <= i < |xs| ==> Enabled(ws[i], xs[i]) && ws[i + 1] == Act(tok, ws[i], xs[i])
  }

  // ----- The registry is the set of live guards

  ghost predicate RegistryExact(tok: Authority -> Token, w: World) {
    && (forall a :: a in w.active <==> Live(PhaseOf(w, a)))
    && (forall a :: a in w.active ==> w.active[a] == tok(a))
  }

  lemma StepKeepsRegistry(tok: Authority -> Token, w: World, x: Action)
    requires RegistryExact(tok, w) && Enabled(w, x)
    ensures RegistryExact(tok, Act(tok, w, x))
  {
  }

  /** In every reachable state the registry holds exactly the live guards, each with its own token. */
  lemma {:induction false} RegistryIsLiveGuards(tok: Authority -> Token, ws: seq<World>, xs: seq<Action>, i: nat)
    requires Behavior(tok, ws, xs) && i < |ws|
    ensures RegistryExact(tok, ws[i])
  {
    if i > 0 {
      RegistryIsLiveGuards(tok, ws, xs, i - 1);
      StepKeepsRegistry(tok, ws[i - 1], xs[i - 1]);
    }
  }

  /** The step takes the attempt out of the registry: its guard is dropped or its refresh failed. */
  predicate Withdraws(x: Action, a: Authority) {
    x == DropGuard(a) || x == RefreshAttempt(a, Failed)
  }

  lemma WithdrawsStep(tok: Authority -> Token, w: World, x: Action, a: Authority)
    requires Enabled(w, x) && a in w.active && !Withdraws(x, a)
    ensures a in Act(tok, w, x).active
  {
  }

  /** An attempt leaves the registry only when its guard is dropped or its refresh fails. */
  lemma {:induction false} StaysRegistered(
    tok: Authority -> Token, ws: seq<World>, xs: seq<Action>, s: nat, i: nat, a: Authority)
    requires Behavior(tok, ws, xs) && s <= i < |ws| && a in ws[s].active
    requires forall k :: s <= k < i ==> !Withdraws(xs[k], a)
    ensures a in ws[i].active
    decreases i
  {
    if i > s {
      StaysRegistered(tok, ws, xs, s, i - 1, a);
      WithdrawsStep(tok, ws[i - 1], xs[i - 1], a);
    }
  }

  // ----- Nothing is cancelled without cause

  /** The step is a reason to cancel the token: a shutdown, a marker of its own attempt, or another's wish. */
  predicate IsCause(tok: Authority -> Token, x: Action, t: Token) {
    x.SetFlag? || x == CancelElsewhere(t) || (x.RefreshAttempt? && x.outcome.Marker? && tok(x.a) == t)
  }

  ghost predicate NoCause(tok: Authority -> Token, xs: seq<Action>, i: nat, t: Token) {
    forall k :: 0 <= k < i && k < |xs| ==> !IsCause(tok, xs[k], t)
  }

  /** No shutdown has begun and nobody is signalling. */
  ghost predicate Calm(w: World) {
    && !w.flag && (forall r :: RequestOf(w, r).Begun?)
    && (forall a :: !PhaseOf(w, a).MustSignal? && !PhaseOf(w, a).Signalling?)
  }

  lemma CalmStep(tok: Authority -> Token, w: World, x: Action, t: Token)
    requires RegistryExact(tok, w) && Calm(w) && Enabled(w, x) && !IsCause(tok, x, t)
    ensures Calm(Act(tok, w, x)) && (t in Act(tok, w, x).cancelled ==> t in w.cancelled)
  {
    var w' := Act(tok, w, x);
    forall r ensures RequestOf(w', r).Begun? {
      assert RequestOf(w, r).Begun? && (x.ClearFlag? || w'.requests == w.requests);
    }
    forall a ensures !PhaseOf(w', a).MustSignal? && !PhaseOf(w', a).Signalling? {
      assert !PhaseOf(w, a).MustSignal? && !PhaseOf(w, a).Signalling?;
    }
  }

  /**
   In every run a token is cancelled only by a shutdown, by a cancellation
   marker of its own attempt, or from elsewhere: registering and dropping other
   attempts never cancels it.
   */
  lemma {:induction false} CancelledWithCause(
    tok: Authority -> Token, ws: seq<World>, xs: seq<Action>, i: nat, t: Token)
    requires Behavior(tok, ws, xs) && i < |ws| && NoCause(tok, xs, i, t)
    ensures Calm(ws[i]) && (t in ws[i].cancelled ==> t in ws[0].cancelled)
  {
    if i > 0 {
      CancelledWithCause(tok, ws, xs, i - 1, t);
      RegistryIsLiveGuards(tok, ws, xs, i - 1);
      CalmStep(tok, ws[i - 1], xs[i - 1], t);
    }
  }

  // ----- No attempt escapes shutdown

  /** The registration has not yet decided whether to signal, or still has to. */
  predicate Undecided(p: Phase) {
    p.Inserted? || p.Refreshed? || p.MustSignal?
  }

  /** The token is cancelled or about to be, by the request or by the registration itself. */
  predicate Covered(tok: Authority -> Token, w: World, a: Authority, r: RequestId) {
    || tok(a) in w.cancelled
    || (RequestOf(w, r).SignallingAll? && tok(a) in RequestOf(w, r).pending)
    || (PhaseOf(w, a).Signalling? && tok(a) in PhaseOf(w, a).pending)
    || Undecided(PhaseOf(w, a))
  }

  /** The request has set the flag, and every live attempt its snapshot may have missed is covered. */
  ghost predicate Guarded(tok: Authority -> Token, w: World, r: RequestId) {
    && !RequestOf(w, r).Begun? && w.flag
    && (RequestOf(w, r).FlagSet? || forall a :: Live(PhaseOf(w, a)) ==> Covered(tok, w, a, r))
  }

  lemma StepKeepsGuarded(tok: Authority -> Token, w: World, x: Action, r: RequestId)
    requires RegistryExact(tok, w) && Guarded(tok, w, r) && Enabled(w, x) && !x.ClearFlag?
    ensures Guarded(tok, Act(tok, w, x), r)
  {
    var w' := Act(tok, w, x);
    if !RequestOf(w', r).FlagSet? {
      forall a | Live(PhaseOf(w', a)) ensures Covered(tok, w', a, r) {
        if Live(PhaseOf(w, a)) {
          assert a in w.active && w.active[a] == tok(a);
          assert tok(a) in w.active.Values;
          assert !RequestOf(w, r).FlagSet? ==> Covered(tok, w, a, r);
        }
      }
    }
  }

  /** The flag is not cleared after step `s` and before step `i`. */
  ghost predicate Uncleared(xs: seq<Action>, s: nat, i: nat) {
    forall k :: s < k < i && k < |xs| ==> !xs[k].ClearFlag?
  }

  lemma {:induction false} GuardedAfter(
    tok: Authority -> Token, ws: seq<World>, xs: seq<Action>, s: nat, i: nat, r: RequestId)
    requires Behavior(tok, ws, xs) && s < i < |ws| && xs[s] == SetFlag(r) && Uncleared(xs, s, i)
    ensures Guarded(tok, ws[i], r)
    decreases i
  {
    if i > s + 1 {
      GuardedAfter(tok, ws, xs, s, i - 1, r);
      RegistryIsLiveGuards(tok, ws, xs, i - 1);
      StepKeepsGuarded(tok, ws[i - 1], xs[i - 1], r);
    } else {
      FlagSetGuards(tok, ws[s], r);
    }
  }

  lemma FlagSetGuards(tok: Authority -> Token, w: World, r: RequestId)
    requires Enabled(w, SetFlag(r))
    ensures Guarded(tok, Act(tok, w, SetFlag(r)), r)
  {
  }

  /**
   No attempt escapes: whatever the interleaving, and however often the flag was
   cleared before, once a shutdown request that set it at step `s` has finished
   and a registration has finished with its guard still held, before or after
   the request, its token is cancelled, unless the flag was cleared in between.
   */
  lemma NoAttemptEscapes(
    tok: Authority -> Token, ws: seq<World>, xs: seq<Action>, s: nat, i: nat, a: Authority, r: RequestId)
    requires Behavior(tok, ws, xs) && s < i < |ws| && xs[s] == SetFlag(r) && Uncleared(xs, s, i)
    requires PhaseOf(ws[i], a).Registered? && RequestOf(ws[i], r).Finished?
    ensures tok(a) in ws[i].cancelled
  {
    GuardedAfter(tok, ws, xs, s, i, r);
    assert Covered(tok, ws[i], a, r);
  }

  /** A request that is past setting the flag did so at some step. */
  lemma {:induction false} RequestSetFlag(
    tok: Authority -> Token, ws: seq<World>, xs: seq<Action>, i: nat, r: RequestId)
      returns (s: nat)
    requires Behavior(tok, ws, xs) && i < |ws| && !RequestOf(ws[i], r).Begun?
    ensures s < i && xs[s] == SetFlag(r)
  {
    if i > 0 && !RequestOf(ws[i - 1], r).Begun? {
      s := RequestSetFlag(tok, ws, xs, i - 1, r);
    } else {
      s := i - 1;
    }
  }

  /** A cancellation marker found while registering cancels the attempt at once and for good. */
  lemma {:induction false} MarkerCancels(
    tok: Authority -> Token, ws: seq<World>, xs: seq<Action>, s: nat, i: nat, a: Authority)
    requires Behavior(tok, ws, xs) && s < i < |ws| && xs[s] == RefreshAttempt(a, Marker)
    ensures tok(a) in ws[i].cancelled
    decreases i
  {
    if i > s + 1 {
      MarkerCancels(tok, ws, xs, s, i - 1, a);
    } else {
      RegistryIsLiveGuards(tok, ws, xs, s);
      assert a in ws[s].active;
    }
  }

  lemma FailureDrops(tok: Authority -> Token, w: World, a: Authority)
    requires Enabled(w, RefreshAttempt(a, Failed))
    ensures PhaseOf(Act(tok, w, RefreshAttempt(a, Failed)), a).Dropped?
  {
  }

  lemma {:induction false} DroppedForGood(
    tok: Authority -> Token, ws: seq<World>, xs: seq<Action>, s: nat, i: nat, a: Authority)
    requires Behavior(tok, ws, xs) && s < i < |ws| && xs[s] == RefreshAttempt(a, Failed)
    ensures PhaseOf(ws[i], a).Dropped?
    decreases i
  {
    if i > s + 1 {
      DroppedForGood(tok, ws, xs, s, i - 1, a);
      DroppedStays(tok, ws[i - 1], xs[i - 1], a);
    } else {
      FailureDrops(tok, ws[s], a);
    }
  }

  /** A registration whose refresh fails is given up: its attempt is never registered again. */
  lemma FailureUnregisters(
    tok: Authority -> Token, ws: seq<World>, xs: seq<Action>, s: nat, i: nat, a: Authority)
    requires Behavior(tok, ws, xs) && s < i < |ws| && xs[s] == RefreshAttempt(a, Failed)
    ensures a !in ws[i].active
  {
    DroppedForGood(tok, ws, xs, s, i, a);
    RegistryIsLiveGuards(tok, ws, xs, i);
  }

  lemma DroppedStays(tok: Authority -> Token, w: World, x: Action, a: Authority)
    requires Enabled(w, x) && PhaseOf(w, a).Dropped?
    ensures PhaseOf(Act(tok, w, x), a).Dropped?
  {
  }

  /** What the signaller has yet to cancel of the tokens active when it began. */
  ghost predicate Signals(w: World, a: Authority, t: Token) {
    t in w.cancelled || (PhaseOf(w, a).Signalling? && t in PhaseOf(w, a).pending)
  }

  lemma StepSignals(tok: Authority -> Token, w: World, x: Action, a: Authority, t: Token)
    requires Enabled(w, x) && Signals(w, a, t)
    ensures Signals(Act(tok, w, x), a, t)
  {
  }

  /**
   A registration that finds the flag set signals everybody: once it has
   finished, every attempt active when it looked is cancelled.
   */
  lemma {:induction false} RegistrationSignalsAll(
    tok: Authority -> Token, ws: seq<World>, xs: seq<Action>, s: nat, i: nat, a: Authority, b: Authority)
    requires Behavior(tok, ws, xs) && s < i < |ws| && xs[s] == SnapshotFor(a) && b in ws[s].active
    ensures Signals(ws[i], a, ws[s].active[b])
    ensures PhaseOf(ws[i], a).Registered? ==> ws[s].active[b] in ws[i].cancelled
    decreases i
  {
    if i > s + 1 {
      RegistrationSignalsAll(tok, ws, xs, s, i - 1, a, b);
      StepSignals(tok, ws[i - 1], xs[i - 1], a, ws[s].active[b]);
    } else {
      assert ws[s].active[b] in ws[s].active.Values;
    }
  }

  /**
   Clearing the flag after the request set it must be excluded: in every run
   that ends with the flag down, whatever requests have finished, a new attempt
   registers without being signalled.
   */
  lemma ClearedLetsAttemptEscape(tok: Authority -> Token, ws: seq<World>, xs: seq<Action>, a: Authority)
      returns (ws': seq<World>, xs': seq<Action>)
    requires Behavior(tok, ws, xs) && !ws[|xs|].flag
    requires PhaseOf(ws[|xs|], a).Idle? && tok(a) !in ws[|xs|].cancelled
    ensures Behavior(tok, ws', xs') && xs <= xs' && ws'[|xs'|].requests == ws[|xs|].requests
    ensures PhaseOf(ws'[|xs'|], a).Registered? && tok(a) !in ws'[|xs'|].cancelled
  {
    var w := ws[|xs|];
    var w1 := Act(tok, w, Insert(a));
    var w2 := Act(tok, w1, RefreshAttempt(a, NoMarker));
    var w3 := Act(tok, w2, ReadFlag(a));
    ws', xs' := ws + [w1, w2, w3], xs + [Insert(a), RefreshAttempt(a, NoMarker), ReadFlag(a)];
  }

  /** Such a run: a request finishes, and then the flag is cleared. */
  lemma ClearedAfterRequest(tok: Authority -> Token, r: RequestId) returns (ws: seq<World>, xs: seq<Action>)
    ensures Behavior(tok, ws, xs) && !ws[|xs|].flag && RequestOf(ws[|xs|], r).Finished?
    ensures ws[|xs|].attempts == map[] && ws[|xs|].cancelled == {}
  {
    xs := [SetFlag(r), SnapshotAll(r), FinishRequest(r), ClearFlag];
    var w0 := World(false, map[], {}, map[], map[]);
    var w1 := Act(tok, w0, SetFlag(r));
    assert w1.active.Values == {};
    var w2 := Act(tok, w1, SnapshotAll(r));
    var w3 := Act(tok, w2, FinishRequest(r));
    ws := [w0, w1, w2, w3, w3.(flag := false)];
  }

  /** A finished request then misses an attempt. */
  lemma ClearLetsAttemptEscape(tok: Authority -> Token, a: Authority, r: RequestId)
      returns (ws: seq<World>, xs: seq<Action>)
    ensures Behavior(tok, ws, xs)
    ensures PhaseOf(ws[|xs|], a).Registered? && RequestOf(ws[|xs|], r).Finished? && tok(a) !in ws[|xs|].cancelled
  {
    ws, xs := ClearedAfterRequest(tok, r);
    ws, xs := ClearedLetsAttemptEscape(tok, ws, xs, a);
  }
}
