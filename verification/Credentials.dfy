/**
 Single-flight credential refresh: the cache, the keyed gate table with its
 weak references, callers that may be cancelled at any await, and the blocking
 command task that keeps the refresh guard alive after its caller is gone.
 */
module Credentials {
  import opened Wrappers

  /** Nanoseconds. */
  type Time = int
  type Caller = nat
  type Gate = nat

  const SECOND := 1_000_000_000
  const REFRESH_SKEW := 300 * SECOND
  const REFRESH_FALLBACK := 600 * SECOND
  const STATIC_TTL := 86_400 * SECOND
  /** The earliest representable system time. */
  const EARLIEST: int := -0x8000_0000_0000_0000 * SECOND
  /** The first and last instants an RFC 3339 timestamp can name: four-digit years, offsets under a day. */
  const FIRST_PARSED: int := (-62_167_219_200 - 86_400) * SECOND
  const LAST_PARSED: int := (253_402_300_800 + 86_400) * SECOND

  /** A resolved credential: when it expires, when it should be refreshed, and when it was resolved. */
  datatype Resolved = Resolved(expiry: Option<Time>, refreshAfter: Option<Time>, resolvedAt: Time)

  datatype Source = Environment | Metadata(expiry: Option<Time>)

  /** A metadata expiry comes from parsing a timestamp. */
  predicate Parsed(source: Source) {
    source.Metadata? && source.expiry.Some? ==> FIRST_PARSED <= source.expiry.value <= LAST_PARSED
  }

  function MetadataRefreshAfter(now: Time, expiry: Option<Time>): Time {
    match expiry
    case None => now + REFRESH_FALLBACK
    case Some(e) => if e - REFRESH_SKEW >= EARLIEST then e - REFRESH_SKEW else now + REFRESH_FALLBACK
  }

  function Resolve(source: Source, now: Time): Resolved {
    match source
    case Environment => Resolved(None, None, now)
    case Metadata(expiry) => Resolved(expiry, Some(MetadataRefreshAfter(now, expiry)), now)
  }

  function CacheTtl(refreshAfter: Option<Time>, now: Time): nat {
    match refreshAfter
    case None => STATIC_TTL
    case Some(t) => if t >= now then t - now else 0
  }

  /** A cached credential; `gap` is the delay between computing its lifetime and storing it. */
  datatype Cached = Cached(value: Resolved, storedAt: Time, expiresAt: Time, gap: int)

  /** One `load_credentials` call. */
  datatype Phase =
    | Start
    | Missed
    | Waiting(gate: Gate)
    | Holding
    | Proceeding
    | Resolving
    | Obtained(value: Resolved)
    | Storing(stored: Resolved, ttl: nat, computedAt: Time)
    | Served(hit: Cached, at: Time)
    | Ended

  /** A refresh guard: locked, unlocked, past the count test of its drop, past its table step. */
  datatype Stage = Held | Released | Counted | Leaving

  /** A refresh guard, filed under the caller that acquired it. */
  datatype Guard = Guard(gate: Gate, stage: Stage)

  datatype World = World(
    table: Option<Gate>, nextGate: Gate,
    phases: map<Caller, Phase>, guards: map<Caller, Guard>, cli: set<Caller>,
    cache: Option<Cached>, now: Time)

  datatype Action =
    | CheckCache(c: Caller)
    | LookUp(c: Caller)
    | Acquire(c: Caller)
    | Recheck(c: Caller)
    | StartResolve(c: Caller)
    | SpawnCli(c: Caller)
    | ExitCli(c: Caller)
    | Succeed(c: Caller, source: Source)
    | Fail(c: Caller)
    | ComputeTtl(c: Caller)
    | Insert(c: Caller)
    | Cancel(c: Caller)
    | Release(c: Caller)
    | CountTest(c: Caller)
    | Remove(c: Caller)
    | DropGate(c: Caller)
    | Tick(now: Time)

  function PhaseOf(w: World, c: Caller): Phase {
    if c in w.phases then w.phases[c] else Start
  }

  predicate Fresh(w: World) {
    w.cache.Some? && w.now < w.cache.value.expiresAt
  }

  /** The caller itself still owns its guard. */
  predicate Owns(p: Phase) {
    p.Holding? || p.Proceeding? || p.Resolving? || p.Obtained? || p.Storing?
  }

  /** Another strong reference to the gate exists beside the guard of `c`. */
  predicate Referenced(w: World, g: Gate, except: Option<Caller>) {
    || (exists d :: d in w.phases && w.phases[d] == Waiting(g))
    || (exists d :: d in w.guards && Some(d) != except && w.guards[d].gate == g)
  }

  predicate Holds(w: World, c: Caller) {
    c in w.guards && w.guards[c].stage == Held
  }

  predicate Locked(w: World, g: Gate) {
    exists d :: d in w.guards && Holds(w, d) && w.guards[d].gate == g
  }

  /** A caller can be dropped only before it runs or where it awaits. */
  predicate Enabled(w: World, a: Action) {
    match a
    case CheckCache(c) => PhaseOf(w, c).Start?
    case LookUp(c) => PhaseOf(w, c).Missed?
    case Acquire(c) => PhaseOf(w, c).Waiting? && c !in w.guards && !Locked(w, PhaseOf(w, c).gate)
    case Recheck(c) => PhaseOf(w, c).Holding?
    case StartResolve(c) => PhaseOf(w, c).Proceeding?
    case SpawnCli(c) => PhaseOf(w, c).Resolving?
    case ExitCli(c) => c in w.cli
    case Succeed(c, source) => PhaseOf(w, c).Resolving? && c !in w.cli && Parsed(source)
    case Fail(c) => PhaseOf(w, c).Resolving? && c !in w.cli
    case ComputeTtl(c) => PhaseOf(w, c).Obtained?
    case Insert(c) => PhaseOf(w, c).Storing?
    case Cancel(c) => PhaseOf(w, c).Start? || PhaseOf(w, c).Waiting? || PhaseOf(w, c).Resolving?
    case Release(c) => Holds(w, c) && !Owns(PhaseOf(w, c)) && c !in w.cli
    case CountTest(c) => c in w.guards && w.guards[c].stage == Released
    case Remove(c) => c in w.guards && w.guards[c].stage == Counted
    case DropGate(c) => c in w.guards && w.guards[c].stage == Leaving
    case Tick(now) => w.now <= now
  }

  function Move(w: World, c: Caller, p: Phase): World {
    w.(phases := w.phases[c := p])
  }

  function Turn(w: World, c: Caller, stage: Stage): World
    requires c in w.guards
  {
    w.(guards := w.guards[c := w.guards[c].(stage := stage)])
  }

  function Act(w: World, a: Action): World
    requires Enabled(w, a)
  {
    match a
    case CheckCache(c) => Move(w, c, if Fresh(w) then Served(w.cache.value, w.now) else Missed)
    case LookUp(c) =>
      if w.table.Some? && Referenced(w, w.table.value, None) then Move(w, c, Waiting(w.table.value))
      else Move(w, c, Waiting(w.nextGate)).(table := Some(w.nextGate), nextGate := w.nextGate + 1)
    case Acquire(c) =>
      Move(w, c, Holding).(guards := w.guards[c := Guard(PhaseOf(w, c).gate, Held)])
    case Recheck(c) => Move(w, c, if Fresh(w) then Served(w.cache.value, w.now) else Proceeding)
    case StartResolve(c) => Move(w, c, Resolving)
    case SpawnCli(c) => w.(cli := w.cli + {c})
    case ExitCli(c) => w.(cli := w.cli - {c})
    case Succeed(c, source) => Move(w, c, Obtained(Resolve(source, w.now)))
    case Fail(c) => Move(w, c, Ended)
    case ComputeTtl(c) =>
      var value := PhaseOf(w, c).value;
      Move(w, c, Storing(value, CacheTtl(value.refreshAfter, w.now), w.now))
    case Insert(c) =>
      var p := PhaseOf(w, c);
      Move(w, c, Ended).(cache :=
        if p.ttl == 0 then None
        else Some(Cached(p.stored, w.now, w.now + p.ttl, w.now - p.computedAt)))
    case Cancel(c) => Move(w, c, Ended)
    case Release(c) => Turn(w, c, Released)
    case CountTest(c) => Turn(w, c, if Referenced(w, w.guards[c].gate, Some(c)) then Leaving else Counted)
    case Remove(c) =>
      Turn(w, c, Leaving).(table := if w.table == Some(w.guards[c].gate) then None else w.table)
    case DropGate(c) => w.(guards := w.guards - {c})
    case Tick(now) => w.(now := now)
  }

  predicate Init(w: World) {
    w.table == None && w.phases == map[] && w.guards == map[] && w.cli == {} && w.cache == None
  }

  ghost predicate Behavior(ws: seq<World>, acts: seq<Action>) {
    && |ws| == |acts| + 1 && Init(ws[0])
    && forall i :: 0 <= i < |acts| ==> Enabled(ws[i], acts[i]) && ws[i + 1] == Act(ws[i], acts[i])
  }

  /** Caller `c` waits on or holds a gate. */
  predicate Uses(w: World, c: Caller) {
    PhaseOf(w, c).Waiting? || Holds(w, c)
  }

  function GateOf(w: World, c: Caller): Gate
    requires Uses(w, c)
  {
    if Holds(w, c) then w.guards[c].gate else PhaseOf(w, c).gate
  }

  /** A default-chain resolution is running: in the caller, or in the command it left behind. */
  predicate InFlight(w: World, c: Caller) {
    PhaseOf(w, c).Resolving? || c in w.cli
  }

  // ----- What a removal may disturb

  /** What a caller that uses a gate may still do with it. */
  datatype Claim = ToHold | ToResolve | ToStore

  /** The phase can still end in a value stored with a lifetime; time only takes that away. */
  predicate Stores(p: Phase, now: Time) {
    match p
    case Holding => true
    case Proceeding => true
    case Resolving => true
    case Obtained(value) => CacheTtl(value.refreshAfter, now) > 0
    case Storing(_, ttl, _) => ttl > 0
    case _ => false
  }

  predicate Claims(k: Claim, w: World, c: Caller) {
    var p := PhaseOf(w, c);
    p.Waiting? || (Holds(w, c) &&
      match k
      case ToHold => true
      case ToResolve => p.Holding? || p.Proceeding? || InFlight(w, c)
      case ToStore => Stores(p, w.now))
  }

  /** The removal takes the table entry from no caller with such a claim on its gate. */
  ghost predicate Spares(k: Claim, w: World, a: Action) {
    a.Remove? && a.c in w.guards && w.table == Some(w.guards[a.c].gate) ==>
      forall d :: Claims(k, w, d) ==> GateOf(w, d) != w.guards[a.c].gate
  }

  /** All removals before step `i` spare the claim. */
  ghost predicate SparingRun(k: Claim, ws: seq<World>, acts: seq<Action>, i: nat)
    requires |ws| == |acts| + 1 && i <= |acts|
  {
    forall j :: 0 <= j < i ==> Spares(k, ws[j], acts[j])
  }

  // ----- In every run

  /** What one caller's phase says about its guard. */
  predicate Owned(w: World, c: Caller) {
    var p := PhaseOf(w, c);
    && (Owns(p) || c in w.cli ==> Holds(w, c))
    && (p.Start? || p.Missed? || p.Waiting? ==> c !in w.guards)
  }

  /** Guards belong to their callers, and a gate has at most one holder. */
  ghost predicate Sane(w: World) {
    && (forall c :: Owned(w, c))
    && (forall c, d :: Holds(w, c) && Holds(w, d) && c != d ==> w.guards[c].gate != w.guards[d].gate)
  }

  lemma StepKeepsSane(w: World, a: Action)
    requires Sane(w) && Enabled(w, a)
    ensures Sane(Act(w, a))
  {
    var w' := Act(w, a);
    forall c ensures Owned(w', c) { assert Owned(w, c); }
    forall c, d | Holds(w', c) && Holds(w', d) && c != d ensures w'.guards[c].gate != w'.guards[d].gate {
      if a.Acquire? && (a.c == c || a.c == d) {
        var other := if a.c == c then d else c;
        assert Holds(w, other) && !Locked(w, PhaseOf(w, a.c).gate);
      }
    }
  }

  lemma {:induction false} SaneAlways(ws: seq<World>, acts: seq<Action>, i: nat)
    requires Behavior(ws, acts) && i < |ws|
    ensures Sane(ws[i])
  {
    if i > 0 {
      SaneAlways(ws, acts, i - 1);
      StepKeepsSane(ws[i - 1], acts[i - 1]);
    }
  }

  // ----- In every run that spares a claim

  /** Every caller with the claim uses the gate in the table. */
  ghost predicate AtTable(k: Claim, w: World) {
    forall c :: Claims(k, w, c) ==> w.table == Some(GateOf(w, c))
  }

  /** A claim arises only by looking a gate up, and keeps its gate. */
  lemma ClaimKeepsGate(k: Claim, w: World, a: Action, c: Caller)
    requires Sane(w) && Enabled(w, a) && Claims(k, Act(w, a), c) && a != LookUp(c)
    ensures Claims(k, w, c) && GateOf(Act(w, a), c) == GateOf(w, c)
  {
    assert Owned(w, c);
  }

  /** While somebody has the claim, no sparing step changes the table. */
  lemma TableStable(k: Claim, w: World, a: Action, c: Caller)
    requires Sane(w) && AtTable(k, w) && Enabled(w, a) && Spares(k, w, a) && Claims(k, w, c)
    ensures Act(w, a).table == w.table
  {
    assert Owned(w, c);
    if a.LookUp? {
      if PhaseOf(w, c).Waiting? {
        assert w.phases[c] == Waiting(GateOf(w, c));
      } else {
        assert c in w.guards && Some(c) != None && w.guards[c].gate == w.table.value;
      }
    }
  }

  lemma StepKeepsAtTable(k: Claim, w: World, a: Action)
    requires Sane(w) && AtTable(k, w) && Enabled(w, a) && Spares(k, w, a)
    ensures AtTable(k, Act(w, a))
  {
    var w' := Act(w, a);
    forall c | Claims(k, w', c) ensures w'.table == Some(GateOf(w', c)) {
      if a != LookUp(c) {
        ClaimKeepsGate(k, w, a, c);
        TableStable(k, w, a, c);
      } else {
        assert Owned(w, c);
      }
    }
  }

  lemma {:induction false} AtTableAlways(k: Claim, ws: seq<World>, acts: seq<Action>, i: nat)
    requires Behavior(ws, acts) && i < |ws| && SparingRun(k, ws, acts, i)
    ensures AtTable(k, ws[i])
  {
    if i > 0 {
      AtTableAlways(k, ws, acts, i - 1);
      SaneAlways(ws, acts, i - 1);
      StepKeepsAtTable(k, ws[i - 1], acts[i - 1]);
    }
  }

  /** Two holders with the claim are one. */
  lemma OneClaimant(k: Claim, w: World, c: Caller, d: Caller)
    requires Sane(w) && AtTable(k, w) && Holds(w, c) && Holds(w, d) && Claims(k, w, c) && Claims(k, w, d)
    ensures c == d
  {
    assert GateOf(w, c) == GateOf(w, d);
  }

  // ----- The three promises

  /** One active operation per key: while removals spare waiters and holders, at most one guard is held. */
  lemma OneHolder(ws: seq<World>, acts: seq<Action>, i: nat, c: Caller, d: Caller)
    requires Behavior(ws, acts) && i < |ws| && SparingRun(ToHold, ws, acts, i)
    requires Holds(ws[i], c) && Holds(ws[i], d)
    ensures c == d
  {
    SaneAlways(ws, acts, i);
    AtTableAlways(ToHold, ws, acts, i);
    OneClaimant(ToHold, ws[i], c, d);
  }

  /**
   Single flight: while removals spare the callers that can still resolve, with
   callers cancelled at any await, two default-chain resolutions never overlap,
   not even one in a caller and one in a command whose caller is gone.
   */
  lemma NoOverlap(ws: seq<World>, acts: seq<Action>, i: nat, c: Caller, d: Caller)
    requires Behavior(ws, acts) && i < |ws| && SparingRun(ToResolve, ws, acts, i)
    requires InFlight(ws[i], c) && InFlight(ws[i], d)
    ensures c == d
  {
    SaneAlways(ws, acts, i);
    AtTableAlways(ToResolve, ws, acts, i);
    assert Owned(ws[i], c) && Owned(ws[i], d);
    OneClaimant(ToResolve, ws[i], c, d);
  }

  /** The caller has found the cache stale under its guard. */
  predicate Rechecked(p: Phase) {
    p.Proceeding? || p.Resolving? || p.Obtained? || p.Storing?
  }

  /** Nothing fresh is cached while a caller that found it stale can still store. */
  ghost predicate StaleMeanwhile(w: World) {
    forall c :: Rechecked(PhaseOf(w, c)) && Stores(PhaseOf(w, c), w.now) ==> !Fresh(w)
  }

  lemma StepKeepsStale(w: World, a: Action)
    requires Sane(w) && AtTable(ToStore, w) && StaleMeanwhile(w) && Enabled(w, a)
    ensures StaleMeanwhile(Act(w, a))
  {
    var w' := Act(w, a);
    forall c | Rechecked(PhaseOf(w', c)) && Stores(PhaseOf(w', c), w'.now) ensures !Fresh(w') {
      assert (Rechecked(PhaseOf(w, c)) && Stores(PhaseOf(w, c), w.now)) || a == Recheck(c);
      if a.Insert? && PhaseOf(w, a.c).ttl > 0 {
        assert Owned(w, c) && Owned(w, a.c);
        OneClaimant(ToStore, w, c, a.c);
      }
    }
  }

  lemma {:induction false} StaleAlways(ws: seq<World>, acts: seq<Action>, i: nat)
    requires Behavior(ws, acts) && i < |ws| && SparingRun(ToStore, ws, acts, i)
    ensures StaleMeanwhile(ws[i])
  {
    if i > 0 {
      StaleAlways(ws, acts, i - 1);
      SaneAlways(ws, acts, i - 1);
      AtTableAlways(ToStore, ws, acts, i - 1);
      StepKeepsStale(ws[i - 1], acts[i - 1]);
    }
  }

  /** While removals spare the callers that can still store, no resolution starts with an unexpired value cached. */
  lemma NoNeedlessResolution(ws: seq<World>, acts: seq<Action>, i: nat)
    requires Behavior(ws, acts) && i < |acts| && SparingRun(ToStore, ws, acts, i)
    requires acts[i].StartResolve?
    ensures !Fresh(ws[i])
  {
    StaleAlways(ws, acts, i);
  }

  /**
   The command keeps the gate: from its start until it exits, whatever becomes
   of its caller, the guard stays held and the resolution counts as running.
   */
  lemma {:induction false} CommandHoldsGate(ws: seq<World>, acts: seq<Action>, s: nat, i: nat, c: Caller)
    requires Behavior(ws, acts) && s < i < |ws| && acts[s] == SpawnCli(c)
    requires forall j :: s < j < i ==> acts[j] != ExitCli(c)
    ensures c in ws[i].cli && InFlight(ws[i], c) && Holds(ws[i], c)
    decreases i
  {
    SaneAlways(ws, acts, i);
    assert Owned(ws[i], c);
    if i > s + 1 { CommandHoldsGate(ws, acts, s, i - 1, c); }
  }

  /** A guard about to remove its gate found itself alone when it counted. */
  lemma {:induction false} CountedAlone(ws: seq<World>, acts: seq<Action>, i: nat, c: Caller) returns (s: nat)
    requires Behavior(ws, acts) && i < |ws| && c in ws[i].guards && ws[i].guards[c].stage == Counted
    ensures s < i && acts[s] == CountTest(c) && c in ws[s].guards
    ensures !Referenced(ws[s], ws[i].guards[c].gate, Some(c)) && ws[s].guards[c].gate == ws[i].guards[c].gate
  {
    assert i > 0 && ws[i] == Act(ws[i - 1], acts[i - 1]);
    if acts[i - 1] == CountTest(c) {
      s := i - 1;
    } else {
      s := CountedAlone(ws, acts, i - 1, c);
    }
  }
}
