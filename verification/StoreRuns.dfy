/**
 Whole runs of the checked store: every sequence of puts and commits, with
 exact replays and reused operation IDs at any point.
 */
module StoreRuns {
  import opened Wrappers
  import opened Keys
  import opened Store

  datatype Call = PutCall(key: Key, value: Bytes) | CommitCall(transaction: Transaction)

  datatype Reply = PutReply(put: Result<(), Error>) | CommitReply(commit: Result<Outcome, Error>)

  function Step(caps: Capabilities, s: State, c: Call): (State, Reply) {
    match c
    case PutCall(key, value) => var (s', r) := PutStep(caps, s, key, value); (s', PutReply(r))
    case CommitCall(t) => var (s', r) := CommitStep(caps, s, t); (s', CommitReply(r))
  }

  function Final(caps: Capabilities, s: State, cs: seq<Call>): State
    decreases |cs|
  {
    if cs == [] then s else Final(caps, Step(caps, s, cs[0]).0, cs[1..])
  }

  function Replies(caps: Capabilities, s: State, cs: seq<Call>): (rs: seq<Reply>)
    ensures |rs| == |cs|
    decreases |cs|
  {
    if cs == [] then [] else
      var (s', r) := Step(caps, s, cs[0]);
      [r] + Replies(caps, s', cs[1..])
  }

  // ----- Repeated operation IDs can be deleted from a run

  /** The call binds an operation ID: it is a commit that passes validation. */
  predicate Binds(caps: Capabilities, c: Call, id: OperationId) {
    c.CommitCall? && c.transaction.id == id && Accepted(caps, c.transaction)
  }

  predicate Repeats(caps: Capabilities, bound: set<OperationId>, c: Call) {
    c.CommitCall? && c.transaction.id in bound && Accepted(caps, c.transaction)
  }

  function Bind(caps: Capabilities, bound: set<OperationId>, c: Call): set<OperationId> {
    if c.CommitCall? && Accepted(caps, c.transaction) then bound + {c.transaction.id} else bound
  }

  /** Positions of `cs` that do not repeat an ID bound earlier, read off the calls alone. */
  function Kept(caps: Capabilities, bound: set<OperationId>, cs: seq<Call>): (keep: seq<bool>)
    ensures |keep| == |cs|
    decreases |cs|
  {
    if cs == [] then [] else
      [!Repeats(caps, bound, cs[0])] + Kept(caps, Bind(caps, bound, cs[0]), cs[1..])
  }

  function Select<T>(xs: seq<T>, keep: seq<bool>): seq<T>
    requires |keep| == |xs|
  {
    if xs == [] then [] else (if keep[0] then [xs[0]] else []) + Select(xs[1..], keep[1..])
  }

  /**
   Exactly once: deleting every call that repeats a bound operation ID leaves
   the final state and the reply of every remaining call as they were.
   */
  lemma {:induction false} ExactlyOnce(caps: Capabilities, s: State, cs: seq<Call>)
    ensures
      var keep := Kept(caps, s.commits.Keys, cs);
      && Final(caps, s, Select(cs, keep)) == Final(caps, s, cs)
      && Replies(caps, s, Select(cs, keep)) == Select(Replies(caps, s, cs), keep)
    decreases |cs|
  {
    if cs != [] {
      var (s', r) := Step(caps, s, cs[0]);
      var keep := Kept(caps, s.commits.Keys, cs);
      BindTracks(caps, s, cs[0]);
      ExactlyOnce(caps, s', cs[1..]);
      assert keep[1..] == Kept(caps, s'.commits.Keys, cs[1..]);
      var tail := Select(cs[1..], keep[1..]);
      if keep[0] {
        assert ([cs[0]] + tail)[1..] == tail;
      } else {
        assert s' == s;
        assert [] + tail == tail;
      }
    }
  }

  /** The bound IDs are exactly the keys of the commit table. */
  lemma BindTracks(caps: Capabilities, s: State, c: Call)
    ensures Step(caps, s, c).0.commits.Keys == Bind(caps, s.commits.Keys, c)
  {
  }

  // ----- What a repeated call answers

  /** A recorded commit is never overwritten. */
  lemma {:induction false} RecordStable(caps: Capabilities, s: State, cs: seq<Call>, id: OperationId)
    requires id in s.commits
    ensures id in Final(caps, s, cs).commits && Final(caps, s, cs).commits[id] == s.commits[id]
    decreases |cs|
  {
    if cs != [] { RecordStable(caps, Step(caps, s, cs[0]).0, cs[1..], id); }
  }

  /** Before each call the state is that of the run so far. */
  lemma {:induction false} ReplyAt(caps: Capabilities, s: State, cs: seq<Call>, i: nat)
    requires i < |cs|
    ensures Replies(caps, s, cs)[i] == Step(caps, Final(caps, s, cs[..i]), cs[i]).1
    ensures Final(caps, s, cs[..i + 1]) == Step(caps, Final(caps, s, cs[..i]), cs[i]).0
    decreases |cs|
  {
    if i == 0 {
      assert cs[..0] == [] && cs[..1] == [cs[0]];
      assert [cs[0]][1..] == [];
    } else {
      assert cs[..i][1..] == cs[1..][..i - 1];
      assert cs[..i + 1][1..] == cs[1..][..i];
      ReplyAt(caps, Step(caps, s, cs[0]).0, cs[1..], i - 1);
    }
  }

  lemma {:induction false} FinalSplit(caps: Capabilities, s: State, cs: seq<Call>, ds: seq<Call>)
    ensures Final(caps, s, cs + ds) == Final(caps, Final(caps, s, cs), ds)
    decreases |cs|
  {
    if cs == [] {
      assert cs + ds == ds;
    } else {
      assert (cs + ds)[1..] == cs[1..] + ds;
      FinalSplit(caps, Step(caps, s, cs[0]).0, cs[1..], ds);
    }
  }

  /**
   An ID is bound after a run iff it was bound before or some call of the run
   with that ID passed validation; a rejected call never binds its ID.
   */
  lemma {:induction false} BoundIff(caps: Capabilities, s: State, cs: seq<Call>, id: OperationId)
    ensures id in Final(caps, s, cs).commits <==>
              id in s.commits || exists i :: 0 <= i < |cs| && Binds(caps, cs[i], id)
    decreases |cs|
  {
    if cs != [] {
      var s' := Step(caps, s, cs[0]).0;
      BindTracks(caps, s, cs[0]);
      BoundIff(caps, s', cs[1..], id);
      if i :| 0 <= i < |cs| && Binds(caps, cs[i], id) {
        if i > 0 { assert Binds(caps, cs[1..][i - 1], id); }
      }
      if i :| 0 <= i < |cs[1..]| && Binds(caps, cs[1..][i], id) { assert Binds(caps, cs[i + 1], id); }
    }
  }

  /** A first accepted call binds its ID to its own content and the reply it gave. */
  lemma FirstCallBinds(caps: Capabilities, s: State, c: Call)
    requires c.CommitCall? && Accepted(caps, c.transaction) && c.transaction.id !in s.commits
    ensures var (s', r) := Step(caps, s, c);
            && c.transaction.id in s'.commits
            && s'.commits[c.transaction.id].transaction == c.transaction
            && r == CommitReply(Ok(s'.commits[c.transaction.id].outcome))
  {
  }

  /** A call with a bound ID answers from the record and changes nothing. */
  lemma BoundCallReplays(caps: Capabilities, s: State, c: Call)
    requires c.CommitCall? && Accepted(caps, c.transaction) && c.transaction.id in s.commits
    ensures var record := s.commits[c.transaction.id];
            Step(caps, s, c) ==
            (s, CommitReply(if record.transaction == c.transaction then Ok(record.outcome) else Err(OperationReused)))
  {
  }

  /** Before every later call the ID of a first accepted call is bound to its content and reply. */
  lemma BoundSince(caps: Capabilities, s: State, cs: seq<Call>, i: nat, j: nat)
    requires i < j < |cs| && cs[i].CommitCall? && Accepted(caps, cs[i].transaction)
    requires cs[i].transaction.id !in Final(caps, s, cs[..i]).commits
    ensures
      var t, commits := cs[i].transaction, Final(caps, s, cs[..j]).commits;
      && t.id in commits && commits[t.id].transaction == t
      && Replies(caps, s, cs)[i] == CommitReply(Ok(commits[t.id].outcome))
  {
    ReplyAt(caps, s, cs, i);
    assert cs[..j] == cs[..i + 1] + cs[i + 1..j];
    FinalSplit(caps, s, cs[..i + 1], cs[i + 1..j]);
    FirstCallBinds(caps, Final(caps, s, cs[..i]), cs[i]);
    RecordStable(caps, Final(caps, s, cs[..i + 1]), cs[i + 1..j], cs[i].transaction.id);
  }

  /**
   Replay: once call `i` has bound its ID, a later accepted call with that ID
   answers what call `i` answered when its content is identical and the reuse
   error otherwise, and changes nothing. A Conflict stays a Conflict.
   */
  lemma Replay(caps: Capabilities, s: State, cs: seq<Call>, i: nat, j: nat)
    requires i < j < |cs|
    requires cs[i].CommitCall? && cs[j].CommitCall?
    requires cs[i].transaction.id == cs[j].transaction.id
    requires Accepted(caps, cs[i].transaction) && Accepted(caps, cs[j].transaction)
    requires cs[i].transaction.id !in Final(caps, s, cs[..i]).commits
    ensures
      var rs := Replies(caps, s, cs);
      && rs[j] == (if cs[j].transaction == cs[i].transaction then rs[i] else CommitReply(Err(OperationReused)))
      && Final(caps, s, cs[..j + 1]) == Final(caps, s, cs[..j])
  {
    BoundSince(caps, s, cs, i, j);
    ReplyAt(caps, s, cs, j);
    BoundCallReplays(caps, Final(caps, s, cs[..j]), cs[j]);
  }

  /**
   Literal deletion of repeated IDs is too much: a call whose transaction was
   rejected did not bind its ID, so a second call with that ID still commits.
   */
  lemma RejectedUseDoesNotBind(caps: Capabilities, id: OperationId, limits: Limits, k: Key, small: Bytes, large: Bytes)
    requires caps.maxTransactionKeys >= 1 && |k.bytes| + |small| <= caps.maxTransactionBytes
    requires |k.bytes| <= caps.maxKeyBytes && |small| <= caps.maxValueBytes < |large|
    ensures
      var first := CommitCall(Transaction(id, [], [Put(k, large)], limits));
      var second := CommitCall(Transaction(id, [], [Put(k, small)], limits));
      var rs := Replies(caps, State(map[], map[]), [first, second]);
      && rs[0].commit.Err?
      && rs[1] == CommitReply(Ok(Committed))
      && Final(caps, State(map[], map[]), [first, second]).entries == map[k := small]
  {
    var s := State(map[], map[]);
    var bad := Transaction(id, [], [Put(k, large)], limits);
    var good := Transaction(id, [], [Put(k, small)], limits);
    assert Put(k, large) in bad.mutations && MutationValue(Put(k, large)) == large;
    assert !ValuesFit(bad, caps.maxValueBytes);
    assert MutationsBytes(good.mutations) == |k.bytes| + |small| + MutationsBytes(good.mutations[1..]);
    assert Accepted(caps, good);
    var cs := [CommitCall(bad), CommitCall(good)];
    assert cs[1..] == [CommitCall(good)] && cs[1..][1..] == [];
    assert Step(caps, s, cs[0]).0 == s;
    assert good.mutations[..0] == [];
    assert Apply(s.entries, good.mutations) == ApplyOne(s.entries, Put(k, small)) == map[k := small];
    assert CommitStep(caps, s, good).0.entries == map[k := small];
    assert Final(caps, s, cs) == Final(caps, s, cs[1..]) == Step(caps, s, cs[1]).0;
  }

  // ----- The entries are the serial effect of the winners

  /** The calls of a run that changed the entries, in order. */
  function Winners(caps: Capabilities, s: State, cs: seq<Call>): seq<Call>
    decreases |cs|
  {
    if cs == [] then [] else
      (if Wins(caps, s, cs[0]) then [cs[0]] else []) + Winners(caps, Step(caps, s, cs[0]).0, cs[1..])
  }

  predicate Wins(caps: Capabilities, s: State, c: Call) {
    match c
    case PutCall(_, _) => Step(caps, s, c).1 == PutReply(Ok(()))
    case CommitCall(t) => t.id !in s.commits && Step(caps, s, c).1 == CommitReply(Ok(Committed))
  }

  function Effect(entries: Entries, c: Call): Entries {
    match c
    case PutCall(key, value) => entries[key := value]
    case CommitCall(t) => Apply(entries, t.mutations)
  }

  function Effects(entries: Entries, cs: seq<Call>): Entries
    decreases |cs|
  {
    if cs == [] then entries else Effects(Effect(entries, cs[0]), cs[1..])
  }

  ghost predicate DistinctIds(cs: seq<Call>) {
    forall i, j :: 0 <= i < j < |cs| && cs[i].CommitCall? && cs[j].CommitCall?
      ==> cs[i].transaction.id != cs[j].transaction.id
  }

  ghost predicate FreshIds(s: State, cs: seq<Call>) {
    forall i :: 0 <= i < |cs| && cs[i].CommitCall? ==> cs[i].transaction.id !in s.commits
  }

  /**
   Serial effects: the final entries are the winners' effects applied one after
   another; every other call left the entries alone.
   */
  lemma {:induction false} SerialEffects(caps: Capabilities, s: State, cs: seq<Call>)
    ensures Final(caps, s, cs).entries == Effects(s.entries, Winners(caps, s, cs))
    decreases |cs|
  {
    if cs != [] {
      var s' := Step(caps, s, cs[0]).0;
      var tail := Winners(caps, s', cs[1..]);
      SerialEffects(caps, s', cs[1..]);
      if Wins(caps, s, cs[0]) {
        assert ([cs[0]] + tail)[1..] == tail;
      } else {
        assert [] + tail == tail;
      }
    }
  }

  /** At most once: no operation ID wins twice, nor after it was bound. */
  lemma {:induction false} WinnersDistinct(caps: Capabilities, s: State, cs: seq<Call>)
    ensures DistinctIds(Winners(caps, s, cs)) && FreshIds(s, Winners(caps, s, cs))
    decreases |cs|
  {
    if cs != [] {
      var s' := Step(caps, s, cs[0]).0;
      WinnersDistinct(caps, s', cs[1..]);
      BindTracks(caps, s, cs[0]);
      var tail := Winners(caps, s', cs[1..]);
      assert FreshIds(s, tail) by {
        assert forall i :: 0 <= i < |tail| && tail[i].CommitCall? ==> tail[i].transaction.id !in s'.commits.Keys;
      }
      if Wins(caps, s, cs[0]) {
        PrependDistinct(s', cs[0], tail);
      } else {
        assert [] + tail == tail;
      }
    }
  }

  lemma PrependDistinct(s: State, c: Call, tail: seq<Call>)
    requires DistinctIds(tail) && FreshIds(s, tail)
    requires c.CommitCall? ==> c.transaction.id in s.commits
    ensures DistinctIds([c] + tail)
  {
  }
}
