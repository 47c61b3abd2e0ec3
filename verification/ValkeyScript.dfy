/**
 The compare-and-swap script over a state/metadata pair of keys, and many
 clients running read, compute, commit against it.
 */
module ValkeyScript {
  import opened Wrappers
  import opened Keys

  /** What the server holds; `expiring` says the key carries a time to live. */
  datatype Db = Db(
    state: Option<Bytes>, metadata: Option<Bytes>,
    stateExpiring: bool, metadataExpiring: bool, noEviction: bool)

  /** The script arguments; the presence flags are the numbers the client sends. */
  datatype Args = Args(
    mode: string, limit: nat, prefixBytes: Positive,
    hadState: nat, hadMetadata: nat, oldState: Bytes, oldMetadata: Bytes,
    newState: Bytes, newMetadata: Bytes, deadline: int)

  datatype Reply =
    | Values(state: Option<Bytes>, metadata: Option<Bytes>)
    | Inspected(exists_: nat, metadata: Option<Bytes>)
    | Refused
    | Applied
    | Failure(code: string)

  function Exists(v: Option<Bytes>): nat {
    if v.Some? then 1 else 0
  }

  function Text(v: Option<Bytes>): Bytes {
    if v.Some? then v.value else []
  }

  /** The leading bytes that hold the revision. */
  function Prefix(v: Bytes, n: nat): Bytes {
    if |v| <= n then v else v[..n]
  }

  /** Server seconds and microseconds as the script's milliseconds. */
  function Millis(seconds: nat, micros: nat): nat {
    seconds * 1000 + micros / 1000
  }

  function Script(db: Db, a: Args, nowMs: nat): (Db, Reply) {
    if a.mode == "commit" && (Exists(db.state) != a.hadState || Exists(db.metadata) != a.hadMetadata) then
      (db, Refused)
    else if !db.noEviction then (db, Failure("AUX_BUFFER_POLICY"))
    else if Exists(db.state) != Exists(db.metadata) then (db, Failure("AUX_BUFFER_CORRUPT"))
    else if db.state.Some? && (db.stateExpiring || db.metadataExpiring) then (db, Failure("AUX_BUFFER_CORRUPT"))
    else if |Text(db.state)| > a.limit || |Text(db.metadata)| > a.limit then (db, Failure("AUX_BUFFER_CORRUPT"))
    else if db.state.Some? && Prefix(Text(db.state), a.prefixBytes) != Prefix(Text(db.metadata), a.prefixBytes) then
      (db, Failure("AUX_BUFFER_CORRUPT"))
    else if a.mode == "read" then (db, Values(db.state, db.metadata))
    else if a.mode == "inspect" then (db, Inspected(Exists(db.state), db.metadata))
    else if a.mode != "commit" then (db, Failure("AUX_BUFFER_CORRUPT"))
    else if a.hadState == 1 && Text(db.state) != a.oldState then (db, Refused)
    else if a.hadMetadata == 1 && Text(db.metadata) != a.oldMetadata then (db, Refused)
    else if a.deadline > 0 && nowMs >= a.deadline then (db, Refused)
    else if |a.newState| > a.limit || |a.newMetadata| > a.limit then (db, Failure("AUX_BUFFER_FULL"))
    else (Db(Some(a.newState), Some(a.newMetadata), false, false, db.noEviction), Applied)
  }

  // ----- The script as the server runs it

  class Server {
    var state: Option<Bytes>
    var metadata: Option<Bytes>
    var stateExpiring: bool
    var metadataExpiring: bool
    var noEviction: bool

    function Contents(): Db
      reads this
    {
      Db(state, metadata, stateExpiring, metadataExpiring, noEviction)
    }

    method Invoke(a: Args, seconds: nat, micros: nat) returns (r: Reply)
      modifies this
      ensures (Contents(), r) == Script(old(Contents()), a, Millis(seconds, micros))
      ensures r != Applied ==> Contents() == old(Contents())
      ensures r == Applied && Prefix(a.newState, a.prefixBytes) == Prefix(a.newMetadata, a.prefixBytes) ==>
                Sound(Contents(), a.limit, a.prefixBytes)
    {
      var stateExists, metadataExists := Exists(state), Exists(metadata);
      if a.mode == "commit" && (stateExists != a.hadState || metadataExists != a.hadMetadata) { return Refused; }
      if !noEviction { return Failure("AUX_BUFFER_POLICY"); }
      if stateExists != metadataExists { return Failure("AUX_BUFFER_CORRUPT"); }
      if stateExists == 1 && (stateExpiring || metadataExpiring) { return Failure("AUX_BUFFER_CORRUPT"); }
      if |Text(state)| > a.limit || |Text(metadata)| > a.limit { return Failure("AUX_BUFFER_CORRUPT"); }
      if stateExists == 1 && Prefix(Text(state), a.prefixBytes) != Prefix(Text(metadata), a.prefixBytes) {
        return Failure("AUX_BUFFER_CORRUPT");
      }
      if a.mode == "read" { return Values(state, metadata); }
      if a.mode == "inspect" { return Inspected(stateExists, metadata); }
      if a.mode != "commit" { return Failure("AUX_BUFFER_CORRUPT"); }
      if a.hadState == 1 && Text(state) != a.oldState { return Refused; }
      if a.hadMetadata == 1 && Text(metadata) != a.oldMetadata { return Refused; }
      var nowMs := Millis(seconds, micros);
      if a.deadline > 0 && nowMs >= a.deadline { return Refused; }
      if |a.newState| > a.limit || |a.newMetadata| > a.limit { return Failure("AUX_BUFFER_FULL"); }
      state, metadata := Some(a.newState), Some(a.newMetadata);
      stateExpiring, metadataExpiring := false, false;
      r := Applied;
    }
  }

  // ----- What one commit decides

  datatype Snapshot = Snapshot(state: Option<Bytes>, metadata: Option<Bytes>)

  datatype Proposal = Proposal(state: Bytes, metadata: Bytes, deadline: int)

  datatype Config = Config(limit: nat, prefixBytes: Positive)

  /** Both keys or neither, nothing expiring or oversized, one revision. */
  predicate Sound(db: Db, limit: nat, prefixBytes: nat) {
    && (db.state.Some? <==> db.metadata.Some?)
    && |Text(db.state)| <= limit && |Text(db.metadata)| <= limit
    && (db.state.Some? ==>
          && !db.stateExpiring && !db.metadataExpiring
          && Prefix(db.state.value, prefixBytes) == Prefix(db.metadata.value, prefixBytes))
  }

  function View(db: Db): Snapshot {
    Snapshot(db.state, db.metadata)
  }

  /** The commit arguments a client builds: an absent value is sent as flag 0 and an empty string. */
  function CommitArgs(c: Config, seen: Snapshot, p: Proposal): Args {
    Args("commit", c.limit, c.prefixBytes, Exists(seen.state), Exists(seen.metadata),
         Text(seen.state), Text(seen.metadata), p.state, p.metadata, p.deadline)
  }

  function ReadArgs(c: Config): Args {
    Args("read", c.limit, c.prefixBytes, 0, 0, [], [], [], [], 0)
  }

  /**
   A commit applies iff the stored pair is exactly the one the client saw
   (absent and empty are different), the pair is sound and not evictable, the
   deadline has not passed and the proposal fits; otherwise nothing changes.
   */
  lemma CommitAppliesIff(c: Config, db: Db, seen: Snapshot, p: Proposal, nowMs: nat)
    ensures
      var (db', r) := Script(db, CommitArgs(c, seen, p), nowMs);
      && (r == Applied <==>
            && View(db) == seen
            && Sound(db, c.limit, c.prefixBytes) && db.noEviction
            && !(p.deadline > 0 && nowMs >= p.deadline)
            && |p.state| <= c.limit && |p.metadata| <= c.limit)
      && (r == Applied ==> View(db') == Snapshot(Some(p.state), Some(p.metadata)))
      && (r != Applied ==> db' == db)
      && (View(db) != seen ==> r == Refused || r.Failure?)
  {
  }

  /** The proposal can be stored. */
  predicate Fits(c: Config, p: Proposal) {
    |p.state| <= c.limit && |p.metadata| <= c.limit
  }

  predicate Expired(p: Proposal, nowMs: nat) {
    p.deadline > 0 && nowMs >= p.deadline
  }

  /** The client saw a different set of keys. */
  predicate OtherKeys(db: Db, seen: Snapshot) {
    db.state.Some? != seen.state.Some? || db.metadata.Some? != seen.metadata.Some?
  }

  /**
   Every answer to a commit, by what is stored: a client that saw other keys is
   refused whatever else holds; then the policy and the soundness of the pair
   decide; and on a sound pair a client that was beaten or is late is refused,
   never told of an error.
   */
  lemma CommitAnswers(c: Config, db: Db, seen: Snapshot, p: Proposal, nowMs: nat)
    ensures Script(db, CommitArgs(c, seen, p), nowMs).1 ==
            if OtherKeys(db, seen) then Refused
            else if !db.noEviction then Failure("AUX_BUFFER_POLICY")
            else if !Sound(db, c.limit, c.prefixBytes) then Failure("AUX_BUFFER_CORRUPT")
            else if View(db) != seen || Expired(p, nowMs) then Refused
            else if Fits(c, p) then Applied
            else Failure("AUX_BUFFER_FULL")
  {
  }

  /** On a sound pair under the policy, a fitting proposal is refused iff its client was beaten or is late. */
  lemma RefusedIff(c: Config, db: Db, seen: Snapshot, p: Proposal, nowMs: nat)
    requires Sound(db, c.limit, c.prefixBytes) && db.noEviction && Fits(c, p)
    ensures var r := Script(db, CommitArgs(c, seen, p), nowMs).1;
            (r == Refused <==> View(db) != seen || Expired(p, nowMs)) && (r == Refused || r == Applied)
  {
    CommitAnswers(c, db, seen, p, nowMs);
  }

  function InspectArgs(c: Config): Args {
    ReadArgs(c).(mode := "inspect")
  }

  /** Reading and inspecting answer with what is stored iff it is sound and the policy holds, and change nothing. */
  lemma LooksAnswer(c: Config, db: Db, nowMs: nat)
    ensures
      var look := Script(db, ReadArgs(c), nowMs);
      var glance := Script(db, InspectArgs(c), nowMs);
      var sound := Sound(db, c.limit, c.prefixBytes);
      && look.0 == db && glance.0 == db
      && (!db.noEviction ==> look.1 == glance.1 == Failure("AUX_BUFFER_POLICY"))
      && (db.noEviction && !sound ==> look.1 == glance.1 == Failure("AUX_BUFFER_CORRUPT"))
      && (db.noEviction && sound ==>
            && look.1 == Values(db.state, db.metadata)
            && glance.1 == Inspected(if db.metadata.Some? then 1 else 0, db.metadata))
  {
  }

  /** No other mode exists: any other name is answered with an error and changes nothing. */
  lemma OnlyThreeModes(db: Db, a: Args, nowMs: nat)
    requires a.mode !in {"read", "inspect", "commit"}
    ensures Script(db, a, nowMs).0 == db && Script(db, a, nowMs).1.Failure?
  {
  }

  /** A deadline in milliseconds has passed on the server's clock iff it has to the microsecond. */
  lemma ExpiredIff(p: Proposal, seconds: nat, micros: nat)
    requires p.deadline > 0
    ensures Expired(p, Millis(seconds, micros)) <==> seconds * 1_000_000 + micros >= p.deadline * 1000
  {
  }

  /** The values agree at a position: both end before it, or both have the same byte there. */
  predicate SameAt(a: Bytes, b: Bytes, i: nat) {
    (i < |a| <==> i < |b|) && (i < |a| && i < |b| ==> a[i] == b[i])
  }

  /** Two values carry one revision iff they agree at each of the leading positions. */
  lemma SameRevisionIff(a: Bytes, b: Bytes, n: nat)
    ensures Prefix(a, n) == Prefix(b, n) <==> forall i: nat :: i < n ==> SameAt(a, b, i)
  {
    var x, y := Prefix(a, n), Prefix(b, n);
    if x == y {
      forall i: nat | i < n ensures SameAt(a, b, i) {
        assert i < |x| ==> x[i] == a[i] && y[i] == b[i];
      }
    } else if |x| != |y| {
      assert !SameAt(a, b, if |x| < |y| then |x| else |y|);
    } else {
      var i :| 0 <= i < |x| && x[i] != y[i];
      assert !SameAt(a, b, i);
    }
  }

  // ----- Many clients

  type ClientId = nat

  /** One mutation call; `Orphaned` lost its connection with the commit still on its way. */
  datatype Phase =
    | Ready
    | Seen(snapshot: Snapshot)
    | Sent(snapshot: Snapshot, proposal: Proposal)
    | Orphaned(snapshot: Snapshot, proposal: Proposal)
    | Done
    | Stopped

  /** `history` and `winners` record every pair the server held and whose commit replaced it. */
  datatype World = World(db: Db, clients: map<ClientId, Phase>, history: seq<Snapshot>, winners: seq<ClientId>)

  datatype Action =
    | Read(client: ClientId, nowMs: nat)
    | Compute(client: ClientId, proposal: Proposal)
    | Commit(client: ClientId, nowMs: nat)
    | Disconnect(client: ClientId)
    | SetPolicy(noEviction: bool)

  /** The update a client may propose from a pair it saw. */
  type Update = (ClientId, Snapshot, Proposal) -> bool

  function PhaseOf(w: World, c: ClientId): Phase {
    if c in w.clients then w.clients[c] else Ready
  }

  predicate Enabled(u: Update, w: World, a: Action) {
    match a
    case Read(c, _) => PhaseOf(w, c).Ready?
    case Compute(c, p) =>
      PhaseOf(w, c).Seen? && u(c, PhaseOf(w, c).snapshot, p)
    case Commit(c, _) => PhaseOf(w, c).Sent? || PhaseOf(w, c).Orphaned?
    case Disconnect(c) => !PhaseOf(w, c).Done? && !PhaseOf(w, c).Orphaned?
    case SetPolicy(_) => true
  }

  function AfterRead(r: Reply): Phase {
    match r case Values(s, m) => Seen(Snapshot(s, m)) case _ => Stopped
  }

  function AfterCommit(before: Phase, r: Reply): Phase {
    if before.Orphaned? then Stopped
    else match r case Applied => Done case Refused => Ready case _ => Stopped
  }

  function Act(cfg: Config, w: World, a: Action): World
    requires a.Compute? ==> PhaseOf(w, a.client).Seen?
    requires a.Commit? ==> PhaseOf(w, a.client).Sent? || PhaseOf(w, a.client).Orphaned?
  {
    match a
    case Read(c, now) => w.(clients := w.clients[c := AfterRead(Script(w.db, ReadArgs(cfg), now).1)])
    case Compute(c, p) => w.(clients := w.clients[c := Sent(PhaseOf(w, c).snapshot, p)])
    case Commit(c, now) =>
      var before := PhaseOf(w, c);
      var (db, r) := Script(w.db, CommitArgs(cfg, before.snapshot, before.proposal), now);
      World(db, w.clients[c := AfterCommit(before, r)],
            if r == Applied then w.history + [View(db)] else w.history,
            if r == Applied then w.winners + [c] else w.winners)
    case Disconnect(c) =>
      var before := PhaseOf(w, c);
      w.(clients := w.clients[c := if before.Sent? then Orphaned(before.snapshot, before.proposal) else Stopped])
    case SetPolicy(b) => w.(db := w.db.(noEviction := b))
  }

  /** An empty server and no call begun. */
  predicate Init(w: World) {
    w.db.state == None && w.db.metadata == None && w.clients == map[] &&
    w.history == [Snapshot(None, None)] && w.winners == []
  }

  ghost predicate Behavior(u: Update, cfg: Config, ws: seq<World>, acts: seq<Action>) {
    && |ws| == |acts| + 1
    && Init(ws[0])
    && forall i :: 0 <= i < |acts| ==> Enabled(u, ws[i], acts[i]) && ws[i + 1] == Act(cfg, ws[i], acts[i])
  }

  /** A later pair is what its winner proposed from the pair just before it. */
  ghost predicate Successor(u: Update, c: ClientId, old_: Snapshot, new_: Snapshot) {
    && new_.state.Some? && new_.metadata.Some?
    && exists d :: u(c, old_, Proposal(new_.state.value, new_.metadata.value, d))
  }

  /** The history is a serial application of the winners' updates. */
  ghost predicate Serial(u: Update, w: World) {
    && |w.history| == |w.winners| + 1
    && w.history[|w.winners|] == View(w.db)
    && forall i :: 0 <= i < |w.winners| ==> Successor(u, w.winners[i], w.history[i], w.history[i + 1])
  }

  /** Who has won: every finished call once, no unfinished one at all. */
  ghost predicate Accounted(w: World) {
    && (forall i, j :: 0 <= i < j < |w.winners| ==> w.winners[i] != w.winners[j])
    && (forall c :: PhaseOf(w, c).Done? ==> c in w.winners)
    && (forall c :: c in w.winners ==> PhaseOf(w, c).Done? || PhaseOf(w, c).Stopped?)
  }

  /** What is on its way was proposed from what its client saw. */
  ghost predicate Pending(u: Update, w: World) {
    forall c :: PhaseOf(w, c).Sent? || PhaseOf(w, c).Orphaned? ==> u(c, PhaseOf(w, c).snapshot, PhaseOf(w, c).proposal)
  }

  /** Both halves of the proposal carry one revision. */
  predicate Agrees(cfg: Config, p: Proposal) {
    Prefix(p.state, cfg.prefixBytes) == Prefix(p.metadata, cfg.prefixBytes)
  }

  /** Every proposal made before step `i` carries one revision. */
  ghost predicate Agreeing(cfg: Config, acts: seq<Action>, i: nat) {
    forall j :: 0 <= j < i && j < |acts| && acts[j].Compute? ==> Agrees(cfg, acts[j].proposal)
  }

  ghost predicate PendingAgrees(cfg: Config, w: World) {
    forall c :: PhaseOf(w, c).Sent? || PhaseOf(w, c).Orphaned? ==> Agrees(cfg, PhaseOf(w, c).proposal)
  }

  lemma StepKeepsPending(u: Update, cfg: Config, w: World, a: Action)
    requires Enabled(u, w, a)
    ensures Pending(u, w) ==> Pending(u, Act(cfg, w, a))
    ensures PendingAgrees(cfg, w) && (a.Compute? ==> Agrees(cfg, a.proposal)) ==> PendingAgrees(cfg, Act(cfg, w, a))
  {
    var w' := Act(cfg, w, a);
    forall c ensures PhaseOf(w', c) == PhaseOf(w, c) || (!a.SetPolicy? && c == a.client) {}
  }

  lemma StepKeepsSerial(u: Update, cfg: Config, w: World, a: Action)
    requires Pending(u, w) && Serial(u, w) && Enabled(u, w, a)
    ensures Serial(u, Act(cfg, w, a))
  {
  }

  lemma StepKeepsSound(u: Update, cfg: Config, w: World, a: Action)
    requires PendingAgrees(cfg, w) && Enabled(u, w, a)
    requires Sound(w.db, cfg.limit, cfg.prefixBytes)
    ensures Sound(Act(cfg, w, a).db, cfg.limit, cfg.prefixBytes)
  {
  }

  lemma StepKeepsAccounted(u: Update, cfg: Config, w: World, a: Action)
    requires Accounted(w) && Enabled(u, w, a)
    ensures Accounted(Act(cfg, w, a))
  {
  }

  /**
   Serializability: in every reachable state, whatever clients propose, the
   server's history is the serial application of exactly the winners' updates,
   each call wins at most once, and a call that reported success won.
   */
  lemma {:induction false} Serializable(u: Update, cfg: Config, ws: seq<World>, acts: seq<Action>, i: nat)
    requires Behavior(u, cfg, ws, acts) && i < |ws|
    ensures Serial(u, ws[i]) && Accounted(ws[i]) && Pending(u, ws[i])
  {
    if i > 0 {
      Serializable(u, cfg, ws, acts, i - 1);
      StepKeepsPending(u, cfg, ws[i - 1], acts[i - 1]);
      StepKeepsSerial(u, cfg, ws[i - 1], acts[i - 1]);
      StepKeepsAccounted(u, cfg, ws[i - 1], acts[i - 1]);
    }
  }

  /** The stored pair is sound as long as both halves of every proposal carry one revision. */
  lemma {:induction false} SoundAlways(u: Update, cfg: Config, ws: seq<World>, acts: seq<Action>, i: nat)
    requires Behavior(u, cfg, ws, acts) && i < |ws| && Agreeing(cfg, acts, i)
    ensures Sound(ws[i].db, cfg.limit, cfg.prefixBytes) && PendingAgrees(cfg, ws[i])
  {
    if i > 0 {
      SoundAlways(u, cfg, ws, acts, i - 1);
      StepKeepsPending(u, cfg, ws[i - 1], acts[i - 1]);
      StepKeepsSound(u, cfg, ws[i - 1], acts[i - 1]);
    }
  }

  /** A pair is stored whose halves carry different revisions. */
  predicate Disagreeing(cfg: Config, db: Db) {
    && db.state.Some? && db.metadata.Some?
    && Prefix(db.state.value, cfg.prefixBytes) != Prefix(db.metadata.value, cfg.prefixBytes)
  }

  /** Nothing is stored, won or newly seen between the two states. */
  ghost predicate Frozen(w: World, w': World) {
    && View(w'.db) == View(w.db) && w'.winners == w.winners && w'.history == w.history
    && forall c :: PhaseOf(w', c).Seen? ==> PhaseOf(w', c) == PhaseOf(w, c)
  }

  lemma DisagreeingStep(u: Update, cfg: Config, w: World, a: Action)
    requires Disagreeing(cfg, w.db) && Enabled(u, w, a)
    ensures Frozen(w, Act(cfg, w, a))
  {
    if a.Commit? {
      CommitAppliesIff(cfg, w.db, PhaseOf(w, a.client).snapshot, PhaseOf(w, a.client).proposal, a.nowMs);
    }
  }

  /**
   Once a stored pair disagrees it is there for good: in every later state of
   every run, whatever the policy, the same pair is stored, nobody has won since,
   and no client has seen anything it had not seen before.
   */
  lemma {:induction false} DisagreementIsFinal(
    u: Update, cfg: Config, ws: seq<World>, acts: seq<Action>, i: nat, j: nat)
    requires Behavior(u, cfg, ws, acts) && i <= j < |ws| && Disagreeing(cfg, ws[i].db)
    ensures Frozen(ws[i], ws[j])
    decreases j
  {
    if i < j {
      DisagreementIsFinal(u, cfg, ws, acts, i, j - 1);
      DisagreeingStep(u, cfg, ws[j - 1], acts[j - 1]);
    }
  }

  /** A client that proposes such a pair to an empty server has it stored. */
  lemma DisagreementFromInit(u: Update, cfg: Config, c: ClientId, p: Proposal)
      returns (ws: seq<World>, acts: seq<Action>)
    requires u(c, Snapshot(None, None), p) && !Agrees(cfg, p)
    requires |p.state| <= cfg.limit && |p.metadata| <= cfg.limit && p.deadline <= 0
    ensures Behavior(u, cfg, ws, acts) && Disagreeing(cfg, ws[|acts|].db)
  {
    var w0 := World(Db(None, None, false, false, true), map[], [Snapshot(None, None)], []);
    var w1 := Act(cfg, w0, Read(c, 0));
    var w2 := Act(cfg, w1, Compute(c, p));
    CommitAppliesIff(cfg, w2.db, View(w0.db), p, 0);
    ws := [w0, w1, w2, Act(cfg, w2, Commit(c, 0))];
    acts := [Read(c, 0), Compute(c, p), Commit(c, 0)];
  }

  /** The history only grows: a stored pair is replaced, never rewritten in the record. */
  lemma {:induction false} HistoryGrows(u: Update, cfg: Config, ws: seq<World>, acts: seq<Action>, i: nat, j: nat)
    requires Behavior(u, cfg, ws, acts) && i <= j < |ws|
    ensures ws[i].history <= ws[j].history && ws[i].winners <= ws[j].winners
    decreases j
  {
    if i < j {
      HistoryGrows(u, cfg, ws, acts, i, j - 1);
      assert ws[j] == Act(cfg, ws[j - 1], acts[j - 1]);
    }
  }

  /** A read shows its client exactly what is stored, or ends the call with an error, by the pair and the policy. */
  lemma ReadShowsIff(u: Update, cfg: Config, ws: seq<World>, acts: seq<Action>, i: nat)
    requires Behavior(u, cfg, ws, acts) && i < |acts| && acts[i].Read?
    ensures PhaseOf(ws[i + 1], acts[i].client) ==
            if ws[i].db.noEviction && Sound(ws[i].db, cfg.limit, cfg.prefixBytes) then Seen(View(ws[i].db)) else Stopped
  {
    LooksAnswer(cfg, ws[i].db, acts[i].nowMs);
  }

  /** Every proposal made before step `i` fits. */
  ghost predicate Fitting(cfg: Config, acts: seq<Action>, i: nat) {
    forall j :: 0 <= j < i && j < |acts| && acts[j].Compute? ==> Fits(cfg, acts[j].proposal)
  }

  ghost predicate PendingFits(cfg: Config, w: World) {
    forall c :: PhaseOf(w, c).Sent? || PhaseOf(w, c).Orphaned? ==> Fits(cfg, PhaseOf(w, c).proposal)
  }

  lemma {:induction false} PendingFitsAlways(u: Update, cfg: Config, ws: seq<World>, acts: seq<Action>, i: nat)
    requires Behavior(u, cfg, ws, acts) && i < |ws| && Fitting(cfg, acts, i)
    ensures PendingFits(cfg, ws[i])
  {
    if i > 0 {
      PendingFitsAlways(u, cfg, ws, acts, i - 1);
      var w, w', a := ws[i - 1], ws[i], acts[i - 1];
      forall c ensures PhaseOf(w', c) == PhaseOf(w, c) || (!a.SetPolicy? && c == a.client) {}
    }
  }

  lemma StepGoesOn(u: Update, cfg: Config, w: World, a: Action, c: ClientId)
    requires Enabled(u, w, a) && a != Disconnect(c) && !PhaseOf(w, c).Stopped? && !PhaseOf(w, c).Orphaned?
    requires Sound(w.db, cfg.limit, cfg.prefixBytes) && w.db.noEviction && PendingFits(cfg, w)
    ensures !PhaseOf(Act(cfg, w, a), c).Stopped? && !PhaseOf(Act(cfg, w, a), c).Orphaned?
  {
    if a.Read? && a.client == c {
      LooksAnswer(cfg, w.db, a.nowMs);
    } else if a.Commit? && a.client == c {
      RefusedIff(cfg, w.db, PhaseOf(w, c).snapshot, PhaseOf(w, c).proposal, a.nowMs);
    }
  }

  /**
   A beaten client goes on: while the policy holds and proposals agree and fit,
   no client that stayed connected is ever stopped, however often it was refused.
   */
  lemma {:induction false} NeverStopped(
    u: Update, cfg: Config, ws: seq<World>, acts: seq<Action>, i: nat, c: ClientId)
    requires Behavior(u, cfg, ws, acts) && i < |ws| && Agreeing(cfg, acts, i) && Fitting(cfg, acts, i)
    requires forall j :: 0 <= j < i ==> ws[j].db.noEviction && acts[j] != Disconnect(c)
    ensures !PhaseOf(ws[i], c).Stopped? && !PhaseOf(ws[i], c).Orphaned?
  {
    if i > 0 {
      NeverStopped(u, cfg, ws, acts, i - 1, c);
      SoundAlways(u, cfg, ws, acts, i - 1);
      PendingFitsAlways(u, cfg, ws, acts, i - 1);
      StepGoesOn(u, cfg, ws[i - 1], acts[i - 1], c);
    }
  }

  /**
   Progress: in every reachable state a client that reads, computes and commits
   undisturbed wins, if the policy holds and its proposal fits and is in time.
   */
  lemma UndisturbedClientWins(
    u: Update, cfg: Config, ws: seq<World>, acts: seq<Action>, c: ClientId, p: Proposal, readMs: nat, commitMs: nat)
    requires Behavior(u, cfg, ws, acts) && Agreeing(cfg, acts, |acts|)
    requires PhaseOf(ws[|acts|], c).Ready? && ws[|acts|].db.noEviction && u(c, View(ws[|acts|].db), p)
    requires |p.state| <= cfg.limit && |p.metadata| <= cfg.limit && (p.deadline > 0 ==> commitMs < p.deadline)
    ensures
      var w := ws[|acts|];
      var w1 := Act(cfg, w, Read(c, readMs));
      && PhaseOf(w1, c) == Seen(View(w.db)) && Enabled(u, w1, Compute(c, p))
      && var w2 := Act(cfg, w1, Compute(c, p));
      && Enabled(u, w2, Commit(c, commitMs))
      && var w3 := Act(cfg, w2, Commit(c, commitMs));
      && PhaseOf(w3, c).Done? && w3.winners == w.winners + [c]
      && w3.history == w.history + [Snapshot(Some(p.state), Some(p.metadata))]
  {
    var w := ws[|acts|];
    SoundAlways(u, cfg, ws, acts, |acts|);
    CommitAppliesIff(cfg, w.db, View(w.db), p, commitMs);
  }
}
