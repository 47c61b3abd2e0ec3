/**
 The coalescing lifecycle mailbox: ordinary triggers coalesce, an explicit
 flush outranks them, and shutdown outranks everything and keeps the shortest
 deadline.
 */
module Mailbox {
  import opened Wrappers

  /** Nanoseconds of the monotonic clock. */
  type Time = nat

  /** The last representable instant. */
  const LATEST: nat := 0x7fff_ffff_ffff_ffff * 1_000_000_000 + 999_999_999

  /** A deadline; `at` is missing when anchor plus budget is not representable. */
  datatype Deadline = Deadline(at: Option<Time>, budget: nat)

  function FromAnchor(anchor: Time, budget: nat): Deadline {
    Deadline(if anchor + budget <= LATEST then Some(anchor + budget) else None, budget)
  }

  datatype Trigger = ResponseCompleted | PeriodicTick | ExplicitFlush | Shutdown(deadline: Deadline)

  function RemainingAt(d: Deadline, now: Time): nat {
    match d.at
    case None => d.budget
    case Some(t) => if t > now then t - now else 0
  }

  function ShortenTo(d: Deadline, other: Deadline, now: Time): Deadline {
    if RemainingAt(other, now) < RemainingAt(d, now) then other else d
  }

  datatype Box = Box(pending: Option<Trigger>, terminating: bool)

  const EMPTY := Box(None, false)

  function PushInto(b: Box, trigger: Trigger, now: Time): Box {
    if b.pending.Some? && b.pending.value.Shutdown? && trigger.Shutdown? then
      b.(pending := Some(Shutdown(ShortenTo(b.pending.value.deadline, trigger.deadline, now))))
    else if trigger.Shutdown? then Box(Some(trigger), true)
    else if b.terminating then b
    else if b.pending == Some(ExplicitFlush) then b
    else b.(pending := Some(trigger))
  }

  // ----- Which of two deadlines is kept

  /** The deadline kept at `now` leaves no more time than either, from then on. */
  ghost predicate KeepsShorter(d: Deadline, other: Deadline, now: Time) {
    forall t: Time :: t >= now ==>
      RemainingAt(ShortenTo(d, other, now), t) <= RemainingAt(d, t) &&
      RemainingAt(ShortenTo(d, other, now), t) <= RemainingAt(other, t)
  }

  /** An undated deadline, which does not run down, passes for the shorter of the two. */
  predicate Overrates(d: Deadline, other: Deadline, now: Time) {
    || (d.at.None? && other.at.Some? && 0 < d.budget <= RemainingAt(other, now))
    || (other.at.None? && d.at.Some? && 0 < other.budget < RemainingAt(d, now))
  }

  /** The shorter deadline is kept for good iff no undated one passes for the shorter. */
  lemma ShortestIff(d: Deadline, other: Deadline, now: Time)
    ensures KeepsShorter(d, other, now) <==> !Overrates(d, other, now)
  {
    if Overrates(d, other, now) {
      var kept := ShortenTo(d, other, now);
      var dated := if d.at.Some? then d else other;
      var t := if dated.at.value > now then dated.at.value else now;
      assert t >= now && RemainingAt(dated, t) == 0 && RemainingAt(kept, t) == kept.budget;
    }
  }

  /** A deadline made by `now`: dated within range, or undated because it reaches past the last instant. */
  predicate Made(d: Deadline, now: Time) {
    match d.at
    case Some(t) => t <= LATEST
    case None => now + d.budget > LATEST
  }

  /** Every deadline anchored by `now` is one made by then. */
  lemma AnchoredIsMade(anchor: Time, budget: nat, now: Time)
    requires anchor <= now
    ensures Made(FromAnchor(anchor, budget), now)
  {
  }

  /** Of two deadlines made by `now` the shorter is kept for good. */
  lemma ShorterIsKept(d: Deadline, other: Deadline, now: Time)
    requires Made(d, now) && Made(other, now)
    ensures KeepsShorter(d, other, now)
  {
    ShortestIff(d, other, now);
  }

  /** An anchor in the future breaks it: such a deadline is undated and short, and is kept too long. */
  lemma FutureAnchorKept(now: Time)
    requires now + 2 <= LATEST
    ensures var d, other := FromAnchor(LATEST, 1), FromAnchor(now, 2);
            ShortenTo(other, d, now) == d && RemainingAt(d, now + 2) == 1 && RemainingAt(other, now + 2) == 0
  {
  }

  // ----- Whole histories

  datatype Event = Pushed(trigger: Trigger, now: Time) | Taken

  function Apply(b: Box, e: Event): Box {
    match e
    case Pushed(trigger, now) => PushInto(b, trigger, now)
    case Taken => b.(pending := None)
  }

  function After(es: seq<Event>): Box {
    if es == [] then EMPTY else Apply(After(es[..|es| - 1]), es[|es| - 1])
  }

  /** How many events from the end are pushes since the last take. */
  function SinceTake(es: seq<Event>): (n: nat)
    ensures n <= |es|
  {
    if es == [] || es[|es| - 1].Taken? then 0 else 1 + SinceTake(es[..|es| - 1])
  }

  predicate AnyShutdown(es: seq<Event>) {
    exists i :: 0 <= i < |es| && es[i].Pushed? && es[i].trigger.Shutdown?
  }

  predicate AnyFlush(es: seq<Event>) {
    exists i :: 0 <= i < |es| && es[i].Pushed? && es[i].trigger.ExplicitFlush?
  }

  /** Times do not run backwards and every shutdown deadline was made before it was pushed. */
  ghost predicate Orderly(es: seq<Event>) {
    && (forall i, j :: 0 <= i < j < |es| && es[i].Pushed? && es[j].Pushed? ==> es[i].now <= es[j].now)
    && (forall i :: 0 <= i < |es| && es[i].Pushed? && es[i].trigger.Shutdown? ==>
          Made(es[i].trigger.deadline, es[i].now))
  }

  /** `d` is one of the pushed deadlines and leaves no more time than any of them, from the last push on. */
  ghost predicate Earliest(pushes: seq<Event>, d: Deadline) {
    && (exists i :: 0 <= i < |pushes| && pushes[i].Pushed? && pushes[i].trigger == Shutdown(d))
    && (forall i, t: Time :: 0 <= i < |pushes| && pushes[i].Pushed? && pushes[i].trigger.Shutdown?
          && (forall j :: 0 <= j < |pushes| && pushes[j].Pushed? ==> pushes[j].now <= t)
          ==> RemainingAt(d, t) <= RemainingAt(pushes[i].trigger.deadline, t))
  }

  /** The priority join of a run of pushes made after `terminated` was already decided. */
  ghost predicate IsJoin(terminated: bool, pushes: seq<Event>, r: Option<Trigger>) {
    if AnyShutdown(pushes) then r.Some? && r.value.Shutdown? && Earliest(pushes, r.value.deadline)
    else if terminated then r == None
    else if AnyFlush(pushes) then r == Some(ExplicitFlush)
    else if pushes == [] then r == None
    else pushes[|pushes| - 1].Pushed? && r == Some(pushes[|pushes| - 1].trigger)
  }

  lemma EarliestSnoc(pushes: seq<Event>, d: Deadline, e: Event)
    requires e.Pushed? && e.trigger.Shutdown? && Orderly(pushes + [e]) && Earliest(pushes, d)
    ensures Earliest(pushes + [e], ShortenTo(d, e.trigger.deadline, e.now))
  {
    var all := pushes + [e];
    var kept := ShortenTo(d, e.trigger.deadline, e.now);
    var k :| 0 <= k < |pushes| && pushes[k].Pushed? && pushes[k].trigger == Shutdown(d);
    assert all[k] == pushes[k] && all[|pushes|] == e;
    assert Made(d, e.now);
    ShorterIsKept(d, e.trigger.deadline, e.now);
    forall i, t: Time | 0 <= i < |all| && all[i].Pushed? && all[i].trigger.Shutdown?
        && (forall j :: 0 <= j < |all| && all[j].Pushed? ==> all[j].now <= t)
      ensures RemainingAt(kept, t) <= RemainingAt(all[i].trigger.deadline, t)
    {
      assert all[|pushes|].now <= t;
      assert RemainingAt(kept, t) <= RemainingAt(d, t) && RemainingAt(kept, t) <= RemainingAt(e.trigger.deadline, t);
      if i < |pushes| {
        assert pushes[i] == all[i];
        assert forall j :: 0 <= j < |pushes| && pushes[j].Pushed? ==> all[j] == pushes[j] && pushes[j].now <= t;
      }
    }
  }

  lemma EarliestSingle(pushes: seq<Event>, e: Event)
    requires e.Pushed? && e.trigger.Shutdown? && !AnyShutdown(pushes)
    ensures Earliest(pushes + [e], e.trigger.deadline)
  {
    var all := pushes + [e];
    assert all[|pushes|] == e;
    assert forall i :: 0 <= i < |pushes| ==> all[i] == pushes[i];
    assert forall i :: 0 <= i < |pushes| && pushes[i].Pushed? ==> !pushes[i].trigger.Shutdown?;
  }

  lemma EarliestKept(pushes: seq<Event>, d: Deadline, e: Event)
    requires e.Pushed? && !e.trigger.Shutdown? && Earliest(pushes, d)
    ensures Earliest(pushes + [e], d)
  {
    var all := pushes + [e];
    var k :| 0 <= k < |pushes| && pushes[k].Pushed? && pushes[k].trigger == Shutdown(d);
    assert all[k] == pushes[k];
    forall i, t: Time | 0 <= i < |all| && all[i].Pushed? && all[i].trigger.Shutdown?
        && (forall j :: 0 <= j < |all| && all[j].Pushed? ==> all[j].now <= t)
      ensures RemainingAt(d, t) <= RemainingAt(all[i].trigger.deadline, t)
    {
      assert pushes[i] == all[i];
      assert forall j :: 0 <= j < |pushes| && pushes[j].Pushed? ==> all[j] == pushes[j] && pushes[j].now <= t;
    }
  }

  lemma AnySnoc(pushes: seq<Event>, e: Event)
    ensures AnyShutdown(pushes + [e]) <==> AnyShutdown(pushes) || (e.Pushed? && e.trigger.Shutdown?)
    ensures AnyFlush(pushes + [e]) <==> AnyFlush(pushes) || (e.Pushed? && e.trigger.ExplicitFlush?)
  {
    var all := pushes + [e];
    assert all[|pushes|] == e;
    assert forall i :: 0 <= i < |pushes| ==> all[i] == pushes[i];
  }

  /** One more push keeps the pending trigger the join of the pushes. */
  lemma JoinSnoc(terminated: bool, pushes: seq<Event>, b: Box, e: Event)
    requires e.Pushed? && Orderly(pushes + [e])
    requires IsJoin(terminated, pushes, b.pending)
    requires b.terminating == (terminated || AnyShutdown(pushes))
    ensures IsJoin(terminated, pushes + [e], PushInto(b, e.trigger, e.now).pending)
    ensures PushInto(b, e.trigger, e.now).terminating == (terminated || AnyShutdown(pushes + [e]))
  {
    AnySnoc(pushes, e);
    if e.trigger.Shutdown? {
      if AnyShutdown(pushes) {
        EarliestSnoc(pushes, b.pending.value.deadline, e);
      } else {
        EarliestSingle(pushes, e);
      }
    } else if AnyShutdown(pushes) {
      EarliestKept(pushes, b.pending.value.deadline, e);
    } else if !terminated && !AnyFlush(pushes) && pushes != [] {
      assert b.pending == Some(pushes[|pushes| - 1].trigger);
      assert pushes[|pushes| - 1].trigger.ExplicitFlush? ==> AnyFlush(pushes);
    }
  }

  /**
   Priority join: after any history the mailbox holds exactly the join of the
   pushes since the last take, given whether a shutdown was pushed before it.
   */
  lemma {:induction false} HoldsJoin(es: seq<Event>)
    requires Orderly(es)
    ensures Joined(es, |es| - SinceTake(es)) && After(es).terminating == AnyShutdown(es)
    decreases |es|
  {
    if es != [] {
      var init, e := es[..|es| - 1], es[|es| - 1];
      assert es == init + [e];
      HoldsJoin(init);
      AnySnoc(init, e);
      if e.Taken? { JoinedTaken(es); } else { JoinedPush(init, |init| - SinceTake(init), e); }
    } else {
      JoinedNone();
    }
  }

  /** The mailbox holds the join of all events but the first `n`. */
  ghost predicate Joined(es: seq<Event>, n: nat)
    requires n <= |es|
  {
    IsJoin(AnyShutdown(es[..n]), es[n..], After(es).pending)
  }

  lemma JoinedNone()
    ensures Joined([], 0)
  {
  }

  lemma JoinedTaken(es: seq<Event>)
    requires es != [] && es[|es| - 1].Taken?
    ensures Joined(es, |es|)
  {
  }

  lemma {:induction false} JoinedPush(init: seq<Event>, n: nat, e: Event)
    requires Orderly(init + [e]) && n <= |init| && e.Pushed? && Joined(init, n)
    requires After(init).terminating == AnyShutdown(init)
    ensures Joined(init + [e], n)
    ensures After(init + [e]).terminating == (AnyShutdown(init) || e.trigger.Shutdown?)
  {
    AnyShutdownSplit(init, n);
    OrderlySuffix(init + [e], n);
    AnySnoc(init[n..], e);
    assert (init + [e])[n..] == init[n..] + [e] && (init + [e])[..n] == init[..n];
    assert (init + [e])[..|init|] == init;
    JoinSnoc(AnyShutdown(init[..n]), init[n..], After(init), e);
  }

  lemma OrderlySuffix(es: seq<Event>, n: nat)
    requires Orderly(es) && n <= |es|
    ensures Orderly(es[n..])
  {
  }

  lemma AnyShutdownSplit(es: seq<Event>, n: nat)
    requires n <= |es|
    ensures AnyShutdown(es) <==> AnyShutdown(es[..n]) || AnyShutdown(es[n..])
  {
  }

  /** Once a shutdown has been pushed, only a shutdown or nothing is ever taken. */
  lemma OnlyShutdownAfterShutdown(es: seq<Event>, more: seq<Event>)
    requires AnyShutdown(es)
    ensures After(es + more).pending.Some? ==> After(es + more).pending.value.Shutdown?
  {
    TerminatingStays(es + more);
    var i :| 0 <= i < |es| && es[i].Pushed? && es[i].trigger.Shutdown?;
    assert (es + more)[i] == es[i];
  }

  lemma {:induction false} TerminatingStays(es: seq<Event>)
    ensures After(es).terminating == AnyShutdown(es)
    ensures After(es).terminating && After(es).pending.Some? ==> After(es).pending.value.Shutdown?
    decreases |es|
  {
    if es != [] {
      var init, e := es[..|es| - 1], es[|es| - 1];
      assert es == init + [e];
      TerminatingStays(init);
      AnySnoc(init, e);
    }
  }

  // ----- The mailbox as an object

  /** What was taken after a history is the join of the pushes since its last take. */
  ghost predicate TakesJoin(h: seq<Event>, taken: Option<Trigger>) {
    Orderly(h) ==>
      var n := |h| - SinceTake(h);
      IsJoin(AnyShutdown(h[..n]), h[n..], taken)
  }

  lemma {:induction false} PendingIsJoin(h: seq<Event>)
    ensures TakesJoin(h, After(h).pending)
  {
    if Orderly(h) { HoldsJoin(h); }
  }

  /** The mailbox, with the history of what was done to it. */
  class LifecycleMailbox {
    var pending: Option<Trigger>
    var terminating: bool
    ghost var history: seq<Event>

    function Contents(): Box
      reads this
    {
      Box(pending, terminating)
    }

    ghost predicate Valid()
      reads this
    {
      Contents() == After(history)
    }

    constructor ()
      ensures Valid() && history == [] && Contents() == EMPTY
    {
      pending := None;
      terminating := false;
      history := [];
    }

    method Push(trigger: Trigger, now: Time)
      requires Valid()
      modifies this
      ensures Valid() && history == old(history) + [Pushed(trigger, now)]
      ensures Contents() == PushInto(old(Contents()), trigger, now)
    {
      history := history + [Pushed(trigger, now)];
      if pending.Some? && pending.value.Shutdown? && trigger.Shutdown? {
        pending := Some(Shutdown(ShortenTo(pending.value.deadline, trigger.deadline, now)));
      } else if trigger.Shutdown? {
        terminating := true;
        pending := Some(trigger);
      } else if terminating {
        return;
      } else if pending == Some(ExplicitFlush) {
        return;
      } else {
        pending := Some(trigger);
      }
    }

    /** Takes the join of everything pushed since the last take. */
    method Take() returns (taken: Option<Trigger>)
      requires Valid()
      modifies this
      ensures Valid() && history == old(history) + [Taken]
      ensures taken == old(pending) && Contents() == Box(None, old(terminating))
      ensures TakesJoin(old(history), taken)
      ensures AnyShutdown(old(history)) && taken.Some? ==> taken.value.Shutdown?
    {
      PendingIsJoin(history);
      TerminatingStays(history);
      taken := pending;
      pending := None;
      history := history + [Taken];
    }
  }
}
