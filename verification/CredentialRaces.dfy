/**
 What goes wrong when a refresh guard removes a gate under a caller that still
 has a claim on it: for each of the three promises, every run that meets such a
 removal goes on, with no other removal, to break the promise.
 */
module CredentialRaces {
  import opened Wrappers
  import opened Credentials

  ghost predicate Leads(ws: seq<World>, acts: seq<Action>) {
    && |ws| == |acts| + 1
    && forall i :: 0 <= i < |acts| ==> Enabled(ws[i], acts[i]) && ws[i + 1] == Act(ws[i], acts[i])
  }

  lemma Join(ws: seq<World>, acts: seq<Action>, ws': seq<World>, acts': seq<Action>)
    requires Leads(ws, acts) && Leads(ws', acts') && ws[|acts|] == ws'[0]
    ensures Leads(ws[..|acts|] + ws', acts + acts')
    ensures (ws[..|acts|] + ws')[0] == ws[0] && (ws[..|acts|] + ws')[|acts + acts'|] == ws'[|acts'|]
  {
  }

  /** No removal among the actions, but possibly that of `c`. */
  predicate Only(acts: seq<Action>, c: Option<Caller>) {
    forall i :: 0 <= i < |acts| && acts[i].Remove? ==> c == Some(acts[i].c)
  }

  /** There is a way from `w` to `w'`. */
  datatype Path = Path(ws: seq<World>, acts: seq<Action>)

  ghost predicate Way(p: Path, w: World, w': World, c: Option<Caller>) {
    Leads(p.ws, p.acts) && p.ws[0] == w && p.ws[|p.acts|] == w' && Only(p.acts, c)
  }

  lemma Stay(w: World) returns (p: Path)
    ensures Way(p, w, w, None)
  {
    p := Path([w], []);
  }

  lemma Step(w: World, a: Action, w': World) returns (p: Path)
    requires Enabled(w, a) && w' == Act(w, a)
    ensures Way(p, w, w', if a.Remove? then Some(a.c) else None)
  {
    p := Path([w, w'], [a]);
  }

  lemma Then(p: Path, q: Path, w: World, w': World, w'': World, c: Option<Caller>, d: Option<Caller>)
      returns (r: Path)
    requires Way(p, w, w', c) && Way(q, w', w'', d) && (c == d || c == None || d == None)
    ensures Way(r, w, w'', if c == None then d else c)
  {
    Join(p.ws, p.acts, q.ws, q.acts);
    r := Path(p.ws[..|p.acts|] + q.ws, p.acts + q.acts);
  }

  // ----- Gates and newcomers

  /** Gates handed out so far are older than the next one. */
  ghost predicate Known(w: World) {
    && (w.table.Some? ==> w.table.value < w.nextGate)
    && (forall c :: PhaseOf(w, c).Waiting? ==> PhaseOf(w, c).gate < w.nextGate)
    && (forall c :: c in w.guards ==> w.guards[c].gate < w.nextGate)
  }

  lemma StepKeepsKnown(w: World, a: Action)
    requires Known(w) && Enabled(w, a)
    ensures Known(Act(w, a))
  {
    var w' := Act(w, a);
    forall c ensures PhaseOf(w', c).Waiting? ==> PhaseOf(w', c).gate < w'.nextGate {
      assert PhaseOf(w', c) == PhaseOf(w, c) || (!a.Tick? && c == a.c);
    }
  }

  lemma {:induction false} KnownAlways(ws: seq<World>, acts: seq<Action>, i: nat)
    requires Behavior(ws, acts) && i < |ws|
    ensures Known(ws[i])
  {
    if i > 0 {
      KnownAlways(ws, acts, i - 1);
      StepKeepsKnown(ws[i - 1], acts[i - 1]);
    }
  }

  ghost predicate Newcomer(w: World, b: Caller) {
    b !in w.phases && b !in w.guards && b !in w.cli
  }

  lemma {:induction false} Bound(s: set<Caller>) returns (n: Caller)
    ensures forall c :: c in s ==> c < n
  {
    if s == {} {
      n := 0;
    } else {
      var c :| c in s;
      var m := Bound(s - {c});
      n := if c < m then m else c + 1;
      assert forall d :: d in s ==> d == c || d in s - {c};
    }
  }

  /** There is always another caller to come. */
  lemma SomeNewcomer(w: World) returns (b: Caller)
    ensures Newcomer(w, b)
  {
    b := Bound(w.phases.Keys + w.guards.Keys + w.cli);
    assert b !in w.phases.Keys + w.guards.Keys + w.cli;
  }

  // ----- Steps of one caller

  /** From `w` to `w'` only `d` moved, and commands may have ended. */
  predicate Beside(w: World, w': World, d: Caller) {
    && w' == w.(phases := w.phases[d := PhaseOf(w', d)], cli := w'.cli, cache := w'.cache, now := w'.now)
    && w'.cli <= w.cli
  }

  function Later(w: World): Time {
    if Fresh(w) then w.cache.value.expiresAt else w.now
  }

  /** A holder that may still find the cache stale finds it stale and proceeds. */
  lemma Proceeds(w: World, d: Caller) returns (p: Path, w': World)
    requires PhaseOf(w, d).Holding?
    ensures Way(p, w, w', None) && Beside(w, w', d)
    ensures PhaseOf(w', d) == Proceeding && !Fresh(w') && w'.cli == w.cli && (!Fresh(w) ==> w'.now == w.now)
  {
    var w1 := w.(now := Later(w));
    var p1 := Step(w, Tick(Later(w)), w1);
    w' := Move(w1, d, Proceeding);
    var p2 := Step(w1, Recheck(d), w');
    p := Then(p1, p2, w, w1, w', None, None);
  }

  lemma BesideSelf(w: World, d: Caller)
    requires Owned(w, d) && Holds(w, d)
    ensures Beside(w, w, d)
  {
    assert w.phases[d := w.phases[d]] == w.phases;
  }

  /** A holder that can still resolve comes to resolve. */
  lemma Resolves(w: World, d: Caller) returns (p: Path, w': World)
    requires Owned(w, d) && Holds(w, d) && Claims(ToResolve, w, d)
    ensures Way(p, w, w', None) && Beside(w, w', d) && InFlight(w', d) && w'.cli == w.cli
  {
    p := Stay(w);
    w' := w;
    BesideSelf(w, d);
    if !InFlight(w, d) {
      var w1 := w;
      if PhaseOf(w, d).Holding? { p, w1 := Proceeds(w, d); }
      w' := Move(w1, d, Resolving);
      var q := Step(w1, StartResolve(d), w');
      p := Then(p, q, w, w1, w', None, None);
    }
  }

  /** A holder that can still store comes to store a value with a lifetime, the cache being stale. */
  lemma {:induction false} Prepares(w: World, d: Caller) returns (p: Path, w': World)
    requires Owned(w, d) && Holds(w, d) && Stores(PhaseOf(w, d), w.now)
    requires Rechecked(PhaseOf(w, d)) ==> !Fresh(w)
    ensures Way(p, w, w', None) && Beside(w, w', d)
    ensures PhaseOf(w', d).Storing? && PhaseOf(w', d).ttl > 0 && !Fresh(w')
    decreases PhaseOf(w, d).Holding?, PhaseOf(w, d).Proceeding?, PhaseOf(w, d).Resolving?, PhaseOf(w, d).Obtained?
  {
    var p1, w1 := PreparesStep(w, d);
    if PhaseOf(w, d).Storing? {
      p, w' := p1, w1;
    } else {
      var p2;
      p2, w' := Prepares(w1, d);
      p := Then(p1, p2, w, w1, w', None, None);
    }
  }

  /** One phase further on the way to storing. */
  lemma PreparesStep(w: World, d: Caller) returns (p: Path, w': World)
    requires Owned(w, d) && Holds(w, d) && Stores(PhaseOf(w, d), w.now)
    requires Rechecked(PhaseOf(w, d)) ==> !Fresh(w)
    ensures Way(p, w, w', None) && Beside(w, w', d) && !Fresh(w') && Owned(w', d)
    ensures Rechecked(PhaseOf(w', d)) && Stores(PhaseOf(w', d), w'.now)
    ensures match PhaseOf(w, d)
            case Holding => PhaseOf(w', d).Proceeding?
            case Proceeding => PhaseOf(w', d).Resolving?
            case Resolving => PhaseOf(w', d).Obtained?
            case _ => PhaseOf(w', d).Storing?
  {
    match PhaseOf(w, d)
    case Holding => p, w' := Proceeds(w, d);
    case Proceeding =>
      w' := Move(w, d, Resolving);
      p := Step(w, StartResolve(d), w');
    case Resolving =>
      var w1 := w.(cli := w.cli - {d});
      if d in w.cli { p := Step(w, ExitCli(d), w1); } else { assert w1.cli == w.cli; p := Stay(w); }
      w' := Move(w1, d, Obtained(Resolve(Environment, w1.now)));
      var q := Step(w1, Succeed(d, Environment), w');
      p := Then(p, q, w, w1, w', None, None);
    case Obtained(value) =>
      w' := Move(w, d, Storing(value, CacheTtl(value.refreshAfter, w.now), w.now));
      p := Step(w, ComputeTtl(d), w');
    case _ =>
      p := Stay(w);
      w' := w;
      BesideSelf(w, d);
  }

  /** The call has resolved, or is over. */
  predicate Past(p: Phase) {
    p.Obtained? || p.Storing? || p.Served? || p.Ended?
  }

  /** A holder past its claims ends its call and any command it left behind. */
  lemma Ends(w: World, h: Caller) returns (p: Path, w': World)
    requires Owned(w, h) && Holds(w, h) && Past(PhaseOf(w, h))
    ensures Way(p, w, w', None) && Beside(w, w', h) && !Owns(PhaseOf(w', h)) && h !in w'.cli
    ensures !PhaseOf(w', h).Waiting?
  {
    BesideSelf(w, h);
    var w1 := w.(cli := w.cli - {h});
    if h in w.cli { p := Step(w, ExitCli(h), w1); } else { assert w1.cli == w.cli; p := Stay(w); }
    var w2 := w1;
    if PhaseOf(w1, h).Obtained? {
      var value := PhaseOf(w1, h).value;
      w2 := Move(w1, h, Storing(value, CacheTtl(value.refreshAfter, w1.now), w1.now));
      var q := Step(w1, ComputeTtl(h), w2);
      p := Then(p, q, w, w1, w2, None, None);
    }
    w' := w2;
    if PhaseOf(w2, h).Storing? {
      w' := Act(w2, Insert(h));
      var q := Step(w2, Insert(h), w');
      p := Then(p, q, w, w2, w', None, None);
    }
  }

  /** What taking a gate leaves as it was: the table, the guards being dropped, and who is still to come. */
  ghost predicate Undisturbed(w: World, w': World) {
    && w'.table == w.table
    && (forall c :: c in w.guards && w.guards[c].stage == Counted ==> c in w'.guards && w'.guards[c] == w.guards[c])
    && (forall b :: Newcomer(w, b) ==> Newcomer(w', b))
  }

  /** A holder past its claims lets its gate go. */
  lemma LetsGo(w: World, h: Caller) returns (p: Path, w': World)
    requires Owned(w, h) && Holds(w, h) && Past(PhaseOf(w, h))
    ensures Way(p, w, w', None) && Undisturbed(w, w')
    ensures forall e :: e != h ==> PhaseOf(w', e) == PhaseOf(w, e)
    ensures w'.guards == w.guards[h := Guard(w.guards[h].gate, Released)]
  {
    var w1;
    p, w1 := Ends(w, h);
    w' := Turn(w1, h, Released);
    var q := Step(w1, Release(h), w');
    p := Then(p, q, w, w1, w', None, None);
  }

  /** A waiter takes a gate nobody holds. */
  lemma AcquiresFree(w: World, g: Gate, d: Caller) returns (p: Path, w': World)
    requires PhaseOf(w, d) == Waiting(g) && d !in w.guards && !Locked(w, g)
    ensures Way(p, w, w', None) && Undisturbed(w, w')
    ensures PhaseOf(w', d).Holding? && Holds(w', d) && w'.guards[d].gate == g
  {
    w' := Move(w, d, Holding).(guards := w.guards[d := Guard(g, Held)]);
    p := Step(w, Acquire(d), w');
  }

  /** A waiter takes the gate once its holder, past its claims, has let go. */
  lemma Acquires(w: World, g: Gate, d: Caller) returns (p: Path, w': World)
    requires Sane(w) && PhaseOf(w, d) == Waiting(g)
    requires forall h :: Holds(w, h) && w.guards[h].gate == g ==> Past(PhaseOf(w, h))
    ensures Way(p, w, w', None) && Undisturbed(w, w')
    ensures PhaseOf(w', d).Holding? && Holds(w', d) && w'.guards[d].gate == g
  {
    assert Owned(w, d);
    if h :| Holds(w, h) && w.guards[h].gate == g {
      assert Owned(w, h);
      var p1, w1 := LetsGo(w, h);
      assert forall e :: Holds(w1, e) ==> Holds(w, e) && e != h && w1.guards[e] == w.guards[e];
      assert !Locked(w1, g);
      p, w' := AcquiresFree(w1, g, d);
      p := Then(p1, p, w, w1, w', None, None);
    } else {
      p, w' := AcquiresFree(w, g, d);
    }
  }

  /** Some caller with the claim comes to hold the gate, if it does not already. */
  lemma TakesGate(k: Claim, w: World, d: Caller) returns (p: Path, w': World, a: Caller)
    requires Sane(w) && Claims(k, w, d)
    ensures Way(p, w, w', None) && Undisturbed(w, w')
    ensures Holds(w', a) && Claims(k, w', a) && w'.guards[a].gate == GateOf(w, d)
    ensures w' == w || PhaseOf(w', a).Holding?
  {
    var g := GateOf(w, d);
    if h :| Holds(w, h) && w.guards[h].gate == g && Claims(k, w, h) {
      p := Stay(w);
      w', a := w, h;
    } else {
      assert !Holds(w, d);
      a := d;
      forall h | Holds(w, h) && w.guards[h].gate == g ensures Past(PhaseOf(w, h)) {
        assert Owned(w, h) && !Claims(k, w, h);
      }
      p, w' := Acquires(w, g, d);
    }
  }

  lemma {:induction false} WayKeeps(p: Path, w: World, w': World, c: Option<Caller>, i: nat)
    requires Way(p, w, w', c) && i < |p.ws| && Sane(w) && Known(w)
    ensures Sane(p.ws[i]) && Known(p.ws[i])
  {
    if i > 0 {
      WayKeeps(p, w, w', c, i - 1);
      StepKeepsSane(p.ws[i - 1], p.acts[i - 1]);
      StepKeepsKnown(p.ws[i - 1], p.acts[i - 1]);
    }
  }

  // ----- The removal

  /** Caller `b` has joined the holders; nothing else about callers, commands or the cache changed. */
  ghost predicate Joined(w: World, w': World, b: Caller) {
    && PhaseOf(w', b).Holding? && Holds(w', b) && !Fresh(w')
    && w'.cli == w.cli && w'.cache == w.cache && (!Fresh(w) ==> w'.now == w.now)
    && forall d :: d != b ==> PhaseOf(w', d) == PhaseOf(w, d) && (Holds(w', d) <==> Holds(w, d))
  }

  /** A newcomer finds the cache stale, once it is. */
  lemma NewcomerMisses(w: World, b: Caller) returns (p: Path, w': World)
    requires Newcomer(w, b)
    ensures Way(p, w, w', None) && w' == Move(w, b, Missed).(now := Later(w)) && !Fresh(w')
  {
    var w1 := w.(now := Later(w));
    var q := Step(w, Tick(Later(w)), w1);
    w' := Move(w1, b, Missed);
    p := Step(w1, CheckCache(b), w');
    p := Then(q, p, w, w1, w', None, None);
  }

  /** A newcomer that finds an empty table passes through a gate of its own. */
  lemma NewcomerEnters(w: World, b: Caller) returns (p: Path, w': World)
    requires w.table == None && Known(w) && Newcomer(w, b)
    ensures Way(p, w, w', None) && Joined(w, w', b)
  {
    var w2, q;
    p, w2 := NewcomerMisses(w, b);
    var w3 := Move(w2, b, Waiting(w.nextGate)).(table := Some(w.nextGate), nextGate := w.nextGate + 1);
    q := Step(w2, LookUp(b), w3);
    p := Then(p, q, w, w2, w3, None, None);
    assert !Locked(w3, w.nextGate);
    w' := Move(w3, b, Holding).(guards := w3.guards[b := Guard(w.nextGate, Held)]);
    q := Step(w3, Acquire(b), w');
    p := Then(p, q, w, w3, w', None, None);
  }

  /** The removal is due, and takes the table entry. */
  ghost predicate Due(w: World, c: Caller) {
    Enabled(w, Remove(c)) && w.table == Some(w.guards[c].gate)
  }

  /** After the removal a newcomer holds a second gate. */
  lemma Removes(w: World, c: Caller, b: Caller) returns (p: Path, w': World)
    requires Known(w) && Due(w, c) && Newcomer(w, b)
    ensures Way(p, w, w', Some(c)) && Joined(w, w', b)
  {
    var w1 := Act(w, Remove(c));
    var q := Step(w, Remove(c), w1);
    StepKeepsKnown(w, Remove(c));
    p, w' := NewcomerEnters(w1, b);
    p := Then(q, p, w, w1, w', Some(c), None);
  }

  /** A claimant of the gate that is about to be removed. */
  lemma Claimant(k: Claim, w: World, c: Caller) returns (d: Caller)
    requires Enabled(w, Remove(c)) && !Spares(k, w, Remove(c))
    ensures Due(w, c) && Claims(k, w, d) && GateOf(w, d) == w.guards[c].gate
  {
    d :| Claims(k, w, d) && GateOf(w, d) == w.guards[c].gate;
  }

  /** Up to the removal: a claimant holds the gate and a newcomer is to come. */
  lemma Approach(k: Claim, ws: seq<World>, acts: seq<Action>, c: Caller)
      returns (p: Path, w': World, a: Caller, b: Caller)
    requires Behavior(ws, acts) && Enabled(ws[|acts|], Remove(c)) && !Spares(k, ws[|acts|], Remove(c))
    ensures Way(p, ws[|acts|], w', None) && Sane(w') && Known(w') && Due(w', c) && Newcomer(w', b)
    ensures Holds(w', a) && Claims(k, w', a) && Owned(w', a) && a != b
    ensures w' == ws[|acts|] || PhaseOf(w', a).Holding?
  {
    var w := ws[|acts|];
    SaneAlways(ws, acts, |acts|);
    KnownAlways(ws, acts, |acts|);
    var d := Claimant(k, w, c);
    b := SomeNewcomer(w);
    p, w', a := TakesGate(k, w, d);
    WayKeeps(p, w, w', None, |p.acts|);
    assert Owned(w', a);
  }

  /** A run extended along a path. */
  lemma Extend(ws: seq<World>, acts: seq<Action>, p: Path, w': World, c: Caller)
      returns (ws': seq<World>, acts': seq<Action>)
    requires Behavior(ws, acts) && Way(p, ws[|acts|], w', Some(c))
    ensures Behavior(ws', acts') && acts <= acts' && Only(acts'[|acts|..], Some(c)) && ws'[|acts'|] == w'
  {
    Join(ws, acts, p.ws, p.acts);
    ws', acts' := ws[..|acts|] + p.ws, acts + p.acts;
    assert acts'[|acts|..] == p.acts;
  }

  /**
   Exact for holding: every run that meets a removal under a waiter or holder
   of the gate goes on, with no other removal, to two holders.
   */
  lemma RemovalLetsTwoHold(ws: seq<World>, acts: seq<Action>, c: Caller)
      returns (ws': seq<World>, acts': seq<Action>, a: Caller, b: Caller)
    requires Behavior(ws, acts) && Enabled(ws[|acts|], Remove(c)) && !Spares(ToHold, ws[|acts|], Remove(c))
    ensures Behavior(ws', acts') && acts <= acts' && Only(acts'[|acts|..], Some(c))
    ensures a != b && Holds(ws'[|acts'|], a) && Holds(ws'[|acts'|], b)
  {
    var p, w1;
    p, w1, a, b := Approach(ToHold, ws, acts, c);
    var q, w2 := Removes(w1, c, b);
    p := Then(p, q, ws[|acts|], w1, w2, None, Some(c));
    ws', acts' := Extend(ws, acts, p, w2, c);
  }

  /**
   Exact for resolving: every run that meets a removal under a caller that can
   still resolve goes on, with no other removal, to two overlapping resolutions.
   */
  lemma RemovalLetsTwoResolve(ws: seq<World>, acts: seq<Action>, c: Caller)
      returns (ws': seq<World>, acts': seq<Action>, a: Caller, b: Caller)
    requires Behavior(ws, acts) && Enabled(ws[|acts|], Remove(c)) && !Spares(ToResolve, ws[|acts|], Remove(c))
    ensures Behavior(ws', acts') && acts <= acts' && Only(acts'[|acts|..], Some(c))
    ensures a != b && InFlight(ws'[|acts'|], a) && InFlight(ws'[|acts'|], b)
  {
    var p, w1;
    p, w1, a, b := Approach(ToResolve, ws, acts, c);
    var q, w2 := Resolves(w1, a);
    p := Then(p, q, ws[|acts|], w1, w2, None, None);
    WayKeeps(q, w1, w2, None, |q.acts|);
    var w3;
    q, w3 := Removes(w2, c, b);
    p := Then(p, q, ws[|acts|], w2, w3, None, Some(c));
    WayKeeps(q, w2, w3, Some(c), |q.acts|);
    assert Owned(w3, b);
    var w4;
    q, w4 := Resolves(w3, b);
    p := Then(p, q, ws[|acts|], w3, w4, Some(c), None);
    ws', acts' := Extend(ws, acts, p, w4, c);
  }

  /** One holder stores after another has found the cache stale and before that one resolves. */
  lemma StoresFirst(w: World, a: Caller, b: Caller) returns (p: Path, w': World)
    requires PhaseOf(w, a).Storing? && PhaseOf(w, a).ttl > 0 && PhaseOf(w, b).Holding? && a != b && !Fresh(w)
    ensures Way(p, w, w', None) && Enabled(w', StartResolve(b)) && Fresh(w')
  {
    var w1;
    p, w1 := Proceeds(w, b);
    w' := Act(w1, Insert(a));
    var q := Step(w1, Insert(a), w');
    p := Then(p, q, w, w1, w', None, None);
  }

  /**
   Exact for storing: every run that has spared the callers that can still
   store and meets a removal under one goes on, with no other removal, to a
   resolution about to start with an unexpired value cached.
   */
  lemma RemovalLetsNeedless(ws: seq<World>, acts: seq<Action>, c: Caller)
      returns (ws': seq<World>, acts': seq<Action>, b: Caller)
    requires Behavior(ws, acts) && SparingRun(ToStore, ws, acts, |acts|)
    requires Enabled(ws[|acts|], Remove(c)) && !Spares(ToStore, ws[|acts|], Remove(c))
    ensures Behavior(ws', acts') && acts <= acts' && Only(acts'[|acts|..], Some(c))
    ensures Enabled(ws'[|acts'|], StartResolve(b)) && Fresh(ws'[|acts'|])
  {
    StaleAlways(ws, acts, |acts|);
    var p, w1, a;
    p, w1, a, b := Approach(ToStore, ws, acts, c);
    var q, w2 := Prepares(w1, a);
    p := Then(p, q, ws[|acts|], w1, w2, None, None);
    WayKeeps(q, w1, w2, None, |q.acts|);
    var w3;
    q, w3 := Removes(w2, c, b);
    p := Then(p, q, ws[|acts|], w2, w3, None, Some(c));
    var w5;
    q, w5 := StoresFirst(w3, a, b);
    p := Then(p, q, ws[|acts|], w3, w5, Some(c), None);
    ws', acts' := Extend(ws, acts, p, w5, c);
  }

  // ----- The races from the start

  const REFRESHING := World(Some(0), 1, map[0 := Proceeding], map[0 := Guard(0, Held)], {}, None, 0)

  const OVER := REFRESHING.(phases := map[0 := Ended])

  const DROPPING := OVER.(guards := map[0 := Guard(0, Counted)])

  lemma RefreshStarts() returns (p: Path, w: World)
    ensures Init(w) && Way(p, w, REFRESHING, None)
  {
    w := World(None, 0, map[], map[], {}, None, 0);
    var w1 := w.(phases := map[0 := Missed]);
    var w2 := World(Some(0), 1, map[0 := Waiting(0)], map[], {}, None, 0);
    var w3 := REFRESHING.(phases := map[0 := Holding]);
    p := Path([w, w1, w2, w3, REFRESHING], [CheckCache(0), LookUp(0), Acquire(0), Recheck(0)]);
  }

  lemma RefreshFails() returns (p: Path)
    ensures Way(p, REFRESHING, OVER, None)
  {
    p := Path([REFRESHING, REFRESHING.(phases := map[0 := Resolving]), OVER], [StartResolve(0), Fail(0)]);
  }

  lemma DropStarts() returns (p: Path)
    ensures Way(p, OVER, DROPPING, None)
  {
    var released := OVER.(guards := map[0 := Guard(0, Released)]);
    assert DROPPING == Act(released, CountTest(0)) by {
      assert !Referenced(released, 0, Some(0));
    }
    p := Path([OVER, released, DROPPING], [Release(0), CountTest(0)]);
  }

  /** One refresh that fails, up to the count test of its guard's drop. */
  lemma FailedRefresh() returns (p: Path, w: World)
    ensures Init(w) && Way(p, w, DROPPING, None)
  {
    p, w := RefreshStarts();
    var q := RefreshFails();
    p := Then(p, q, w, REFRESHING, OVER, None, None);
    q := DropStarts();
    p := Then(p, q, w, OVER, DROPPING, None, None);
  }

  /** A run without any removal in which the next caller looks the gate up before it is removed. */
  lemma RaceFromInit() returns (ws: seq<World>, acts: seq<Action>)
    ensures Behavior(ws, acts) && (forall k :: SparingRun(k, ws, acts, |acts|))
    ensures Enabled(ws[|acts|], Remove(0)) && (forall k :: !Spares(k, ws[|acts|], Remove(0)))
  {
    var p, w := FailedRefresh();
    var w1 := Move(DROPPING, 1, Missed);
    var q := Step(DROPPING, CheckCache(1), w1);
    p := Then(p, q, w, DROPPING, w1, None, None);
    var w2 := Move(w1, 1, Waiting(0));
    assert Referenced(w1, 0, None) by { assert 0 in w1.guards && w1.guards[0].gate == 0; }
    q := Step(w1, LookUp(1), w2);
    p := Then(p, q, w, w1, w2, None, None);
    ws, acts := p.ws, p.acts;
    assert PhaseOf(w2, 1) == Waiting(0) && GateOf(w2, 1) == 0;
    forall k ensures !Spares(k, w2, Remove(0)) { assert Claims(k, w2, 1); }
  }

  /** The promise of single flight fails of the code: a run in which two resolutions overlap. */
  lemma OverlapFromInit() returns (ws: seq<World>, acts: seq<Action>, a: Caller, b: Caller)
    ensures Behavior(ws, acts) && a != b && InFlight(ws[|acts|], a) && InFlight(ws[|acts|], b)
  {
    var ws0, acts0 := RaceFromInit();
    ws, acts, a, b := RemovalLetsTwoResolve(ws0, acts0, 0);
  }

  /** And a run in which a resolution starts with an unexpired value cached. */
  lemma NeedlessFromInit() returns (ws: seq<World>, acts: seq<Action>)
    ensures Behavior(ws, acts) && acts != [] && acts[|acts| - 1].StartResolve? && Fresh(ws[|acts| - 1])
  {
    var ws0, acts0 := RaceFromInit();
    var b;
    ws, acts, b := RemovalLetsNeedless(ws0, acts0, 0);
    var w := ws[|acts|];
    ws, acts := ws + [Act(w, StartResolve(b))], acts + [StartResolve(b)];
  }
}
