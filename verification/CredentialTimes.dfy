/**
 How long a cached credential is served: the lifetime it is given, the margin
 it keeps before its expiry, and the delay that eats into that margin.
 */
module CredentialTimes {
  import opened Wrappers
  import opened Credentials
  import opened CredentialRaces

  /** A parsed expiry is refreshed five minutes ahead, metadata without one ten minutes after being resolved. */
  lemma RefreshedAhead(source: Source, now: Time)
    requires Parsed(source)
    ensures Ahead(Resolve(source, now))
  {
  }

  predicate Ahead(r: Resolved) {
    && (r.expiry.Some? ==> r.refreshAfter == Some(r.expiry.value - REFRESH_SKEW))
    && (r.expiry.None? && r.refreshAfter.Some? ==> r.refreshAfter.value == r.resolvedAt + REFRESH_FALLBACK)
  }

  /** The lifetime a cached entry has: a day, or up to its refresh time and the storing delay. */
  predicate WellDated(x: Cached) {
    && Ahead(x.value) && x.gap >= 0
    && x.expiresAt == match x.value.refreshAfter
                      case None => x.storedAt + STATIC_TTL
                      case Some(t) => t + x.gap
  }

  /** What each phase says about the value in hand. */
  predicate PhaseDated(p: Phase, now: Time) {
    match p
    case Obtained(value) => Ahead(value)
    case Storing(value, ttl, at) => Ahead(value) && at <= now && ttl == CacheTtl(value.refreshAfter, at)
    case Served(hit, at) => WellDated(hit) && at < hit.expiresAt
    case _ => true
  }

  ghost predicate Dated(w: World) {
    && (w.cache.Some? ==> WellDated(w.cache.value))
    && (forall c :: PhaseDated(PhaseOf(w, c), w.now))
  }

  lemma StepKeepsDated(w: World, a: Action)
    requires Dated(w) && Enabled(w, a)
    ensures Dated(Act(w, a))
  {
    var w' := Act(w, a);
    if a.Succeed? { RefreshedAhead(a.source, w.now); }
    forall c ensures PhaseDated(PhaseOf(w', c), w'.now) {
      assert PhaseDated(PhaseOf(w, c), w.now);
      assert PhaseOf(w', c) == PhaseOf(w, c) || (!a.Tick? && c == a.c);
    }
    if a.Insert? { assert PhaseDated(PhaseOf(w, a.c), w.now); }
  }

  lemma {:induction false} DatedAlways(ws: seq<World>, acts: seq<Action>, i: nat)
    requires Behavior(ws, acts) && i < |ws|
    ensures Dated(ws[i])
  {
    if i > 0 {
      DatedAlways(ws, acts, i - 1);
      StepKeepsDated(ws[i - 1], acts[i - 1]);
    }
  }

  /**
   A store replaces what was cached: by the value just resolved if its refresh
   time was still to come when its lifetime was computed, and by nothing otherwise.
   */
  lemma StoreReplaces(ws: seq<World>, acts: seq<Action>, i: nat)
    requires Behavior(ws, acts) && i < |acts| && acts[i].Insert?
    ensures var Storing(value, _, at) := PhaseOf(ws[i], acts[i].c);
            if value.refreshAfter.Some? && value.refreshAfter.value <= at then ws[i + 1].cache == None
            else Fresh(ws[i + 1]) && ws[i + 1].cache.value.value == value
  {
    DatedAlways(ws, acts, i);
    assert PhaseDated(PhaseOf(ws[i], acts[i].c), ws[i].now);
  }

  /** Less than five minutes before the expiry, or later. */
  predicate Late(r: Resolved, t: Time) {
    r.expiry.Some? && t + REFRESH_SKEW > r.expiry.value
  }

  /**
   In every run, whatever gates were removed, a value with an expiry is served
   from cache more than five minutes before it and metadata without one within
   ten minutes of being resolved, up to the storing delay, and a static value
   within a day of being stored.
   */
  lemma ServedInTime(ws: seq<World>, acts: seq<Action>, i: nat, c: Caller)
    requires Behavior(ws, acts) && i < |ws| && PhaseOf(ws[i], c).Served?
    ensures var Served(x, t) := PhaseOf(ws[i], c);
            && (x.value.expiry.Some? ==> t + REFRESH_SKEW < x.value.expiry.value + x.gap)
            && (x.gap <= 1 ==> !Late(x.value, t))
            && (x.value.refreshAfter.None? ==> t < x.storedAt + STATIC_TTL)
            && (x.value.refreshAfter.Some? && x.value.expiry.None? ==>
                  t < x.value.resolvedAt + REFRESH_FALLBACK + x.gap)
  {
    DatedAlways(ws, acts, i);
    assert PhaseDated(PhaseOf(ws[i], c), ws[i].now);
  }

  /**
   A served value leaves at least five minutes at every moment it can be served
   iff it was stored within a nanosecond, the last of which is never served.
   */
  lemma FiveMinutesIff(ws: seq<World>, acts: seq<Action>, i: nat, c: Caller)
    requires Behavior(ws, acts) && i < |ws| && PhaseOf(ws[i], c).Served?
    requires PhaseOf(ws[i], c).hit.value.expiry.Some?
    ensures var x := PhaseOf(ws[i], c).hit;
            (forall t: Time :: t < x.expiresAt ==> !Late(x.value, t)) <==> x.gap <= 1
  {
    var x := PhaseOf(ws[i], c).hit;
    DatedAlways(ws, acts, i);
    assert PhaseDated(PhaseOf(ws[i], c), ws[i].now);
    assert Late(x.value, x.expiresAt - 1) <==> x.gap > 1;
  }

  /**
   The delay is exactly what costs the margin: every run in which a value with
   an expiry is cached, still fresh, and was stored with a delay of more than a
   nanosecond goes on to serve it late.
   */
  lemma DelayServesLate(ws: seq<World>, acts: seq<Action>)
      returns (ws': seq<World>, acts': seq<Action>, c: Caller)
    requires Behavior(ws, acts) && Fresh(ws[|acts|])
    requires ws[|acts|].cache.value.value.expiry.Some? && ws[|acts|].cache.value.gap > 1
    ensures Behavior(ws', acts') && acts <= acts'
    ensures var p := PhaseOf(ws'[|acts'|], c);
            p.Served? && p.hit == ws[|acts|].cache.value && Late(p.hit.value, p.at)
  {
    var w := ws[|acts|];
    DatedAlways(ws, acts, |acts|);
    c := SomeNewcomer(w);
    var last := w.cache.value.expiresAt - 1;
    var w1 := w.(now := last);
    var p := Step(w, Tick(last), w1);
    var w2 := Move(w1, c, Served(w.cache.value, last));
    var q := Step(w1, CheckCache(c), w2);
    p := Then(p, q, w, w1, w2, None, None);
    Join(ws, acts, p.ws, p.acts);
    ws', acts' := ws[..|acts|] + p.ws, acts + p.acts;
  }

  const RESOLVING := REFRESHING.(phases := map[0 := Resolving])
  const RESOLVED := Resolved(Some(1000 * SECOND), Some(700 * SECOND), 0)
  const STORING := REFRESHING.(phases := map[0 := Storing(RESOLVED, 700 * SECOND, 0)])
  const DELAYED := Cached(RESOLVED, 10 * SECOND, 710 * SECOND, 10 * SECOND)

  /** A refresh that computes a lifetime of 700 seconds... */
  lemma LifetimeComputed() returns (p: Path)
    ensures Way(p, REFRESHING, STORING, None)
  {
    var obtained := REFRESHING.(phases := map[0 := Obtained(RESOLVED)]);
    p := Step(REFRESHING, StartResolve(0), RESOLVING);
    var q := Step(RESOLVING, Succeed(0, Metadata(Some(1000 * SECOND))), obtained);
    p := Then(p, q, REFRESHING, RESOLVING, obtained, None, None);
    q := Step(obtained, ComputeTtl(0), STORING);
    p := Then(p, q, REFRESHING, obtained, STORING, None, None);
  }

  /** ...and stores the value ten seconds later. */
  lemma DelayedStore() returns (p: Path, w: World)
    ensures Way(p, REFRESHING, w, None) && w.now == 10 * SECOND && w.cache == Some(DELAYED)
  {
    p := LifetimeComputed();
    var later := STORING.(now := 10 * SECOND);
    var q := Step(STORING, Tick(10 * SECOND), later);
    p := Then(p, q, REFRESHING, STORING, later, None, None);
    w := later.(phases := map[0 := Ended], cache := Some(DELAYED));
    q := Step(later, Insert(0), w);
    p := Then(p, q, REFRESHING, later, w, None, None);
  }

  /** The promise of five minutes fails of the code: a run that serves a value late. */
  lemma LateFromInit() returns (ws: seq<World>, acts: seq<Action>, c: Caller)
    ensures Behavior(ws, acts) && PhaseOf(ws[|acts|], c).Served?
    ensures Late(PhaseOf(ws[|acts|], c).hit.value, PhaseOf(ws[|acts|], c).at)
  {
    var p, w0 := RefreshStarts();
    var q, w := DelayedStore();
    p := Then(p, q, w0, REFRESHING, w, None, None);
    ws, acts, c := DelayServesLate(p.ws, p.acts);
  }
}
