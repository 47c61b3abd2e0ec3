/**
 Many clients updating one key by read, compute, checked commit, interleaved
 with any calls that do not write that key.
 */
module LostUpdate {
  import opened Wrappers
  import opened Keys
  import opened Store
  import opened StoreRuns

  type Client = nat

  /** The store and the value each client last read. */
  datatype World = World(store: State, seen: map<Client, Bytes>)

  datatype Action = Read(client: Client) | Update(client: Client, id: OperationId) | Elsewhere(call: Call)

  /** The shared key, the update each operation computes, and the transaction limits. */
  datatype Setup = Setup(caps: Capabilities, key: Key, f: (OperationId, Bytes) -> Bytes, limits: Limits)

  function UpdateOf(u: Setup, id: OperationId, seen: Bytes): Transaction {
    Transaction(id, [Value(u.key, seen)], [Put(u.key, u.f(id, seen))], u.limits)
  }

  predicate Writes(t: Transaction, key: Key) {
    exists i :: 0 <= i < |t.mutations| && t.mutations[i].key == key
  }

  predicate Touches(call: Call, key: Key) {
    match call
    case PutCall(k, _) => k == key
    case CommitCall(t) => Writes(t, key)
  }

  /** No other writer of the key. */
  predicate LeavesAlone(key: Key, a: Action) {
    a.Elsewhere? ==> !Touches(a.call, key)
  }

  function Act(u: Setup, w: World, a: Action): World {
    match a
    case Read(c) => if u.key in w.store.entries then w.(seen := w.seen[c := w.store.entries[u.key]])
                 else w.(seen := w.seen - {c})
    case Update(c, id) =>
      if c in w.seen then w.(store := CommitStep(u.caps, w.store, UpdateOf(u, id, w.seen[c])).0) else w
    case Elsewhere(call) => w.(store := Step(u.caps, w.store, call).0)
  }

  /** The update was answered Committed by its first use. */
  predicate Won(u: Setup, w: World, a: Action) {
    && a.Update? && a.client in w.seen && a.id !in w.store.commits
    && CommitStep(u.caps, w.store, UpdateOf(u, a.id, w.seen[a.client])).1 == Ok(Committed)
  }

  function After(u: Setup, w: World, acts: seq<Action>): World
    decreases |acts|
  {
    if acts == [] then w else After(u, Act(u, w, acts[0]), acts[1..])
  }

  /** Operation IDs of the winning updates, in commit order. */
  function Log(u: Setup, w: World, acts: seq<Action>): seq<OperationId>
    decreases |acts|
  {
    if acts == [] then [] else
      (if Won(u, w, acts[0]) then [acts[0].id] else []) + Log(u, Act(u, w, acts[0]), acts[1..])
  }

  function Fold(f: (OperationId, Bytes) -> Bytes, v: Bytes, ids: seq<OperationId>): Bytes
    decreases |ids|
  {
    if ids == [] then v else Fold(f, f(ids[0], v), ids[1..])
  }

  /** `id` is recorded as a committed update of the key. */
  predicate CommittedUpdate(u: Setup, s: State, id: OperationId) {
    id in s.commits && s.commits[id].outcome == Committed && Writes(s.commits[id].transaction, u.key)
  }

  function ValueOf(entries: Entries, k: Key): Option<Bytes> {
    if k in entries then Some(entries[k]) else None
  }

  /** What happened to the key: an update won, or another call left this behind. */
  datatype Event = Updated(id: OperationId) | Overwritten(value: Option<Bytes>)

  function EventOf(u: Setup, w: World, a: Action): Option<Event> {
    if Won(u, w, a) then Some(Updated(a.id))
    else if a.Elsewhere? && Touches(a.call, u.key) && Wins(u.caps, w.store, a.call) then
      Some(Overwritten(ValueOf(Effect(w.store.entries, a.call), u.key)))
    else None
  }

  function History(u: Setup, w: World, acts: seq<Action>): seq<Event>
    decreases |acts|
  {
    if acts == [] then [] else
      (if EventOf(u, w, acts[0]).Some? then [EventOf(u, w, acts[0]).value] else [])
      + History(u, Act(u, w, acts[0]), acts[1..])
  }

  /** An update changes a stored value and cannot bring back a missing one. */
  function AfterEvent(f: (OperationId, Bytes) -> Bytes, v: Option<Bytes>, e: Event): Option<Bytes> {
    match e
    case Updated(id) => if v.Some? then Some(f(id, v.value)) else None
    case Overwritten(value) => value
  }

  function Replayed(f: (OperationId, Bytes) -> Bytes, v: Option<Bytes>, es: seq<Event>): Option<Bytes>
    decreases |es|
  {
    if es == [] then v else Replayed(f, AfterEvent(f, v, es[0]), es[1..])
  }

  /** An update wins only while exactly what its client read is stored: never after a delete. */
  lemma WinsOnWhatItRead(u: Setup, w: World, a: Action)
    requires Won(u, w, a)
    ensures ValueOf(w.store.entries, u.key) == Some(w.seen[a.client])
  {
    var t := UpdateOf(u, a.id, w.seen[a.client]);
    CommitsIff(u.caps, w.store, t);
    assert Value(u.key, w.seen[a.client]) in t.checks;
  }

  lemma ActEffect(u: Setup, w: World, a: Action)
    ensures
      var before, after := ValueOf(w.store.entries, u.key), ValueOf(Act(u, w, a).store.entries, u.key);
      after == match EventOf(u, w, a) case None => before case Some(e) => AfterEvent(u.f, before, e)
  {
    match a
    case Read(_) =>
    case Update(c, id) =>
      if c in w.seen {
        var t := UpdateOf(u, id, w.seen[c]);
        assert t.mutations[..0] == [];
        assert Apply(w.store.entries, t.mutations) == ApplyOne(w.store.entries, t.mutations[0]);
        if Won(u, w, a) { WinsOnWhatItRead(u, w, a); }
      }
    case Elsewhere(call) =>
      if call.CommitCall? && !Touches(call, u.key) {
        ApplyFrame(w.store.entries, call.transaction.mutations, u.key);
      }
  }

  lemma ActRecords(u: Setup, w: World, a: Action, id: OperationId)
    requires LeavesAlone(u.key, a)
    ensures CommittedUpdate(u, Act(u, w, a).store, id) <==>
              CommittedUpdate(u, w.store, id) || (Won(u, w, a) && a.id == id)
    ensures id in w.store.commits ==> id in Act(u, w, a).store.commits
  {
  }

  /**
   No lost update: whatever the interleaving, replays, ID reuse and other
   writers of the key, its final value is what happened to it one after another:
   each winning update applied to the value just before it, never to an older
   one, and what other calls wrote or deleted in between.
   */
  lemma {:induction false} NoLostUpdate(u: Setup, w: World, acts: seq<Action>)
    ensures ValueOf(After(u, w, acts).store.entries, u.key) ==
              Replayed(u.f, ValueOf(w.store.entries, u.key), History(u, w, acts))
    decreases |acts|
  {
    if acts != [] {
      ActEffect(u, w, acts[0]);
      var w' := Act(u, w, acts[0]);
      var rest := History(u, w', acts[1..]);
      NoLostUpdate(u, w', acts[1..]);
      if EventOf(u, w, acts[0]).Some? {
        assert ([EventOf(u, w, acts[0]).value] + rest)[1..] == rest;
      } else {
        assert [] + rest == rest;
      }
    }
  }

  /**
   With no other writer the final value is the update function applied once for
   each operation of the log, in commit order; a missing key stays missing and
   nobody wins.
   */
  lemma {:induction false} SoleWriters(u: Setup, w: World, acts: seq<Action>)
    requires forall i :: 0 <= i < |acts| ==> LeavesAlone(u.key, acts[i])
    ensures
      var after := ValueOf(After(u, w, acts).store.entries, u.key);
      match ValueOf(w.store.entries, u.key)
      case None => after == None && Log(u, w, acts) == []
      case Some(v) => after == Some(Fold(u.f, v, Log(u, w, acts)))
    decreases |acts|
  {
    if acts != [] {
      ActEffect(u, w, acts[0]);
      if Won(u, w, acts[0]) { WinsOnWhatItRead(u, w, acts[0]); }
      var w' := Act(u, w, acts[0]);
      var rest := Log(u, w', acts[1..]);
      SoleWriters(u, w', acts[1..]);
      if Won(u, w, acts[0]) {
        assert ([acts[0].id] + rest)[1..] == rest;
      } else {
        assert [] + rest == rest;
      }
    }
  }

  /** The log holds each operation once: exactly those newly recorded as committed updates. */
  lemma {:induction false} LogExact(u: Setup, w: World, acts: seq<Action>)
    requires forall i :: 0 <= i < |acts| ==> LeavesAlone(u.key, acts[i])
    ensures forall i, j :: 0 <= i < j < |Log(u, w, acts)| ==> Log(u, w, acts)[i] != Log(u, w, acts)[j]
    ensures forall id :: id in Log(u, w, acts) ==> id !in w.store.commits
    ensures forall id :: CommittedUpdate(u, After(u, w, acts).store, id) <==>
                           CommittedUpdate(u, w.store, id) || id in Log(u, w, acts)
    decreases |acts|
  {
    if acts != [] {
      var w' := Act(u, w, acts[0]);
      LogExact(u, w', acts[1..]);
      forall id
        ensures CommittedUpdate(u, w'.store, id) <==>
                  CommittedUpdate(u, w.store, id) || (Won(u, w, acts[0]) && acts[0].id == id)
        ensures id in w.store.commits ==> id in w'.store.commits
      {
        ActRecords(u, w, acts[0], id);
      }
      if Won(u, w, acts[0]) {
        assert acts[0].id in w'.store.commits;
      }
    }
  }

  function Power(f: Bytes -> Bytes, n: nat, v: Bytes): Bytes
    decreases n
  {
    if n == 0 then v else Power(f, n - 1, f(v))
  }

  /** With one update function for all, only the number of committed operations matters. */
  lemma {:induction false} FoldIsPower(
    g: Bytes -> Bytes, f: (OperationId, Bytes) -> Bytes, v: Bytes, ids: seq<OperationId>)
    requires forall id, x :: f(id, x) == g(x)
    ensures Fold(f, v, ids) == Power(g, |ids|, v)
    decreases |ids|
  {
    if ids != [] { FoldIsPower(g, f, g(v), ids[1..]); }
  }
}
