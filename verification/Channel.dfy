/**
 The lifecycle channel: senders, closers and any number of waiters over one
 mailbox and one notifier.

 The notifier stores at most one permit. `notify_one` wakes one registered
 waiter, or stores the permit when there is none; `notify_waiters` wakes every
 registered waiter and stores nothing; a waiter dropped with an unconsumed
 `notify_one` passes it on.
 */
module Channel {
  import opened Wrappers
  import opened Mailbox

  type WaiterId = nat

  datatype Notification = NotYet | ByOne | ByAll

  /** One `next_event` future. Between a wake-up and the next await it runs without interruption. */
  datatype Waiter =
    | Fresh
    | Blocked(notification: Notification)
    | Returned(event: Option<Trigger>)
    | Gone

  /** `log` lists what was returned, in order, by all waiters together. */
  datatype World = World(
    box: Box, closed: bool, permit: bool, waiters: map<WaiterId, Waiter>, log: seq<Option<Trigger>>)

  datatype Action =
    | Send(trigger: Trigger, now: Time, woken: Option<WaiterId>)
    | Close
    | Poll(w: WaiterId)
    | Abandon(w: WaiterId, woken: Option<WaiterId>)

  function WaiterOf(s: World, w: WaiterId): Waiter {
    if w in s.waiters then s.waiters[w] else Fresh
  }

  predicate Sleeping(s: World, w: WaiterId) {
    w in s.waiters && s.waiters[w] == Blocked(NotYet)
  }

  predicate Notified(s: World, w: WaiterId) {
    w in s.waiters && s.waiters[w].Blocked? && !s.waiters[w].notification.NotYet?
  }

  /** `woken` is a sleeping waiter, or none when there is none. */
  predicate Choice(s: World, woken: Option<WaiterId>) {
    match woken
    case Some(w) => Sleeping(s, w)
    case None => forall w :: w in s.waiters ==> !Sleeping(s, w)
  }

  function NotifyOne(s: World, woken: Option<WaiterId>): World {
    match woken
    case Some(w) => s.(waiters := s.waiters[w := Blocked(ByOne)])
    case None => s.(permit := true)
  }

  function NotifyWaiters(s: World): World {
    s.(waiters := map w | w in s.waiters :: if s.waiters[w] == Blocked(NotYet) then Blocked(ByAll) else s.waiters[w])
  }

  predicate Enabled(s: World, a: Action) {
    match a
    case Send(_, _, woken) => Choice(s, woken)
    case Close => true
    case Poll(w) => WaiterOf(s, w).Fresh? || Notified(s, w)
    case Abandon(w, woken) =>
      WaiterOf(s, w).Fresh? ||
      (WaiterOf(s, w).Blocked? && (WaiterOf(s, w).notification.ByOne? ==> Choice(s, woken)))
  }

  function Return(s: World, w: WaiterId, event: Option<Trigger>): World {
    s.(waiters := s.waiters[w := Returned(event)], log := s.log + [event])
  }

  function Act(s: World, a: Action): World
    requires Enabled(s, a)
  {
    match a
    case Send(trigger, now, woken) =>
      if s.closed then s else NotifyOne(s.(box := PushInto(s.box, trigger, now)), woken)
    case Close => NotifyWaiters(s.(closed := true))
    case Poll(w) =>
      // Enabling the fresh registration consumes a stored permit.
      var s1 := s.(permit := false);
      if s.box.pending.Some? then Return(s1.(box := s.box.(pending := None)), w, s.box.pending)
      else if s.closed then Return(s1, w, None)
      else s1.(waiters := s.waiters[w := Blocked(NotYet)])
    case Abandon(w, woken) =>
      var s1 := s.(waiters := s.waiters[w := Gone]);
      if WaiterOf(s, w) == Blocked(ByOne) then NotifyOne(s1, woken) else s1
  }

  predicate Init(s: World) {
    s == World(EMPTY, false, false, map[], [])
  }

  ghost predicate Behavior(ss: seq<World>, acts: seq<Action>) {
    && |ss| == |acts| + 1 && Init(ss[0])
    && forall i :: 0 <= i < |acts| ==> Enabled(ss[i], acts[i]) && ss[i + 1] == Act(ss[i], acts[i])
  }

  // ----- No lost wake-up

  /**
   A stored permit excludes sleepers, a closed channel has none, and while an
   event is pending no waiter sleeps unless another has been notified.
   */
  ghost predicate NoneStranded(s: World) {
    && (s.permit ==> forall w :: !Sleeping(s, w))
    && (s.closed ==> forall w :: !Sleeping(s, w))
    && (forall w :: w in s.waiters && s.waiters[w] == Blocked(ByAll) ==> s.closed)
    && (s.box.pending.Some? && (exists w :: Sleeping(s, w)) ==> exists v :: Notified(s, v))
  }

  lemma StepStrandsNone(s: World, a: Action)
    requires NoneStranded(s) && Enabled(s, a)
    ensures NoneStranded(Act(s, a))
  {
    var s' := Act(s, a);
    match a
    case Send(_, _, woken) =>
      if !s.closed {
        if woken.Some? {
          assert Notified(s', woken.value);
        } else {
          assert forall w :: Sleeping(s', w) ==> Sleeping(s, w);
        }
      }
    case Close =>
      assert forall w :: !Sleeping(s', w);
    case Poll(w) =>
      forall v | v != w ensures Sleeping(s', v) <==> Sleeping(s, v) {}
    case Abandon(w, woken) =>
      AbandonStrandsNone(s, w, woken);
  }

  lemma AbandonStrandsNone(s: World, w: WaiterId, woken: Option<WaiterId>)
    requires NoneStranded(s) && Enabled(s, Abandon(w, woken))
    ensures NoneStranded(Act(s, Abandon(w, woken)))
  {
    var s' := Act(s, Abandon(w, woken));
    assert forall v :: Sleeping(s', v) ==> Sleeping(s, v);
    if WaiterOf(s, w) == Blocked(ByOne) {
      if woken.Some? { assert Notified(s', woken.value); }
    } else if s.box.pending.Some? && exists v :: Sleeping(s', v) {
      var v :| Sleeping(s', v);
      assert Sleeping(s, v);
      var n :| Notified(s, n);
      assert !s.closed;
      assert Notified(s', n);
    }
  }

  /**
   No lost wake-up: in every reachable state a pending event never meets only
   sleeping waiters, and a closed channel meets none.
   */
  lemma {:induction false} NoLostWakeup(ss: seq<World>, acts: seq<Action>, i: nat)
    requires Behavior(ss, acts) && i < |ss|
    ensures NoneStranded(ss[i])
  {
    if i > 0 {
      NoLostWakeup(ss, acts, i - 1);
      StepStrandsNone(ss[i - 1], acts[i - 1]);
    }
  }

  // ----- Closing

  /** After close nothing new is accepted and `closed` stays set. */
  lemma {:induction false} ClosedForever(ss: seq<World>, acts: seq<Action>, i: nat, j: nat)
    requires Behavior(ss, acts) && i <= j < |ss| && ss[i].closed
    ensures ss[j].closed && ss[i].log <= ss[j].log
    ensures ss[j].box.pending == ss[i].box.pending || ss[j].box.pending == None
    decreases j
  {
    if i < j { ClosedForever(ss, acts, i, j - 1); }
  }

  /** What was returned since the close: first the event pending then, and after it only the end. */
  ghost predicate Served(first: Option<Trigger>, pending: Option<Trigger>, new_: seq<Option<Trigger>>) {
    if pending == first && first.Some? then new_ == []
    else
      && pending == None
      && (first.Some? ==> new_ != [] && new_[0] == first)
      && forall k :: (if first.Some? then 1 else 0) <= k < |new_| ==> new_[k] == None
  }

  /** Nothing returned was taken back since `s0`, and what was returned since then was served in order. */
  ghost predicate ServedSince(s0: World, s: World) {
    s0.log <= s.log && Served(s0.box.pending, s.box.pending, s.log[|s0.log|..])
  }

  lemma PollServes(s0: World, s: World, w: WaiterId)
    requires ServedSince(s0, s) && s.closed && Enabled(s, Poll(w))
    ensures ServedSince(s0, Act(s, Poll(w)))
  {
    var s', n := Act(s, Poll(w)), |s0.log|;
    assert s'.log == s.log + [s.box.pending] && s'.box.pending == None;
    assert s'.log[n..] == s.log[n..] + [s.box.pending];
  }

  /** On a closed channel only a poll returns anything, and nothing becomes pending. */
  lemma OthersServeNothing(s: World, a: Action)
    requires s.closed && Enabled(s, a) && !a.Poll?
    ensures Act(s, a).log == s.log && Act(s, a).box == s.box
  {
  }

  lemma StepServes(s0: World, s: World, a: Action)
    requires ServedSince(s0, s) && s.closed && Enabled(s, a)
    ensures ServedSince(s0, Act(s, a))
  {
    if a.Poll? { PollServes(s0, s, a.w); } else { OthersServeNothing(s, a); }
  }

  lemma ServedSelf(s: World)
    ensures ServedSince(s, s)
  {
    assert s.log[|s.log|..] == [];
  }

  /**
   An event pending at close is the very next thing returned, before any end of
   stream; and once nothing is pending every further return is the end.
   */
  lemma {:induction false} PendingBeforeEnd(ss: seq<World>, acts: seq<Action>, i: nat, j: nat)
    requires Behavior(ss, acts) && i <= j < |ss| && ss[i].closed
    ensures ServedSince(ss[i], ss[j])
    decreases j
  {
    if i == j {
      ServedSelf(ss[i]);
    } else {
      PendingBeforeEnd(ss, acts, i, j - 1);
      ClosedForever(ss, acts, i, j - 1);
      StepServes(ss[i], ss[j - 1], acts[j - 1]);
    }
  }

  /** The end of the stream is reported only by a closed channel with nothing left to deliver. */
  lemma {:induction false} EndOnlyWhenClosed(ss: seq<World>, acts: seq<Action>, i: nat)
    requires Behavior(ss, acts) && i < |ss|
    ensures None in ss[i].log ==> ss[i].closed && ss[i].box.pending == None
  {
    if i > 0 {
      EndOnlyWhenClosed(ss, acts, i - 1);
      assert Enabled(ss[i - 1], acts[i - 1]) && ss[i] == Act(ss[i - 1], acts[i - 1]);
    }
  }

  // ----- What is sent is delivered

  /** What a step does to the mailbox: a send while open pushes, a poll that finds an event takes. */
  function EventOf(s: World, a: Action): Option<Event> {
    match a
    case Send(trigger, now, _) => if s.closed then None else Some(Pushed(trigger, now))
    case Poll(_) => if s.box.pending.Some? then Some(Taken) else None
    case _ => None
  }

  /** The history of the mailbox, read off the first `i` steps. */
  ghost function Doings(ss: seq<World>, acts: seq<Action>, i: nat): seq<Event>
    requires i <= |acts| && |ss| == |acts| + 1
  {
    if i == 0 then []
    else
      match EventOf(ss[i - 1], acts[i - 1])
      case None => Doings(ss, acts, i - 1)
      case Some(e) => Doings(ss, acts, i - 1) + [e]
  }

  /** In every run the mailbox is what the sends and returns so far make of it. */
  lemma {:induction false} BoxIsHistory(ss: seq<World>, acts: seq<Action>, i: nat)
    requires Behavior(ss, acts) && i < |ss|
    ensures ss[i].box == After(Doings(ss, acts, i))
  {
    if i > 0 {
      BoxIsHistory(ss, acts, i - 1);
      var s, a := ss[i - 1], acts[i - 1];
      assert ss[i] == Act(s, a);
      if EventOf(s, a).Some? {
        var h := Doings(ss, acts, i - 1);
        assert (h + [EventOf(s, a).value])[..|h|] == h;
      }
    }
  }

  /** Every event returned is the join of the sends since the one returned before it. */
  lemma {:induction false} ReturnsJoin(ss: seq<World>, acts: seq<Action>, i: nat)
    requires Behavior(ss, acts) && i < |acts| && acts[i].Poll? && ss[i].box.pending.Some?
    ensures ss[i + 1].log == ss[i].log + [ss[i].box.pending]
    ensures TakesJoin(Doings(ss, acts, i), ss[i].box.pending)
    ensures WaiterOf(ss[i + 1], acts[i].w) == Returned(ss[i].box.pending)
  {
    BoxIsHistory(ss, acts, i);
    PendingIsJoin(Doings(ss, acts, i));
  }

  /** The send leaves an event pending: always, but for an ordinary trigger after a shutdown was taken. */
  predicate Accepts(s: World, trigger: Trigger) {
    trigger.Shutdown? || !s.box.terminating || s.box.pending.Some?
  }

  lemma SendPendsIff(s: World, a: Action)
    requires Enabled(s, a) && a.Send? && !s.closed
    ensures Act(s, a).box.pending.Some? <==> Accepts(s, a.trigger)
  {
  }

  /** What is pending stays pending until it is polled. */
  lemma {:induction false} PendsUntilPolled(ss: seq<World>, acts: seq<Action>, i: nat, j: nat)
    requires Behavior(ss, acts) && i <= j < |ss| && ss[i].box.pending.Some?
    requires forall k :: i <= k < j ==> !acts[k].Poll?
    ensures ss[j].box.pending.Some?
    decreases j
  {
    if i < j {
      PendsUntilPolled(ss, acts, i, j - 1);
      assert ss[j] == Act(ss[j - 1], acts[j - 1]);
    }
  }

  /** An accepted send on an open channel is delivered: the next poll, whoever makes it, returns an event. */
  lemma {:induction false} SentIsDelivered(ss: seq<World>, acts: seq<Action>, i: nat, j: nat)
    requires Behavior(ss, acts) && i < j < |acts| && acts[i].Send? && !ss[i].closed && Accepts(ss[i], acts[i].trigger)
    requires acts[j].Poll? && forall k :: i < k < j ==> !acts[k].Poll?
    ensures ss[j].box.pending.Some? && TakesJoin(Doings(ss, acts, j), ss[j].box.pending)
    ensures WaiterOf(ss[j + 1], acts[j].w) == Returned(ss[j].box.pending)
  {
    assert ss[i + 1] == Act(ss[i], acts[i]);
    SendPendsIff(ss[i], acts[i]);
    PendsUntilPolled(ss, acts, i + 1, j);
    ReturnsJoin(ss, acts, j);
  }

  /** Whatever a waiter returned is in the log, so an open channel has returned no end to anybody. */
  lemma {:induction false} ReturnsAreLogged(ss: seq<World>, acts: seq<Action>, i: nat, w: WaiterId)
    requires Behavior(ss, acts) && i < |ss| && WaiterOf(ss[i], w).Returned?
    ensures WaiterOf(ss[i], w).event in ss[i].log
    ensures WaiterOf(ss[i], w).event == None ==> ss[i].closed
  {
    EndOnlyWhenClosed(ss, acts, i);
    if i > 0 {
      var s, a := ss[i - 1], acts[i - 1];
      assert ss[i] == Act(s, a);
      if a.Poll? && a.w == w {
        assert ss[i].log == s.log + [WaiterOf(ss[i], w).event];
      } else {
        assert WaiterOf(ss[i], w) == WaiterOf(s, w);
        ReturnsAreLogged(ss, acts, i - 1, w);
      }
    }
  }
}
