/**
 Many clients creating one key by a checked commit: `Absent` as a lock.
 */
module CreateOnce {
  import opened Keys
  import opened Store
  import opened StoreRuns

  predicate Puts(m: Mutation, k: Key) {
    m.Put? && m.key == k
  }

  /** A commit that creates the key, guarded by its absence. */
  predicate Creates(c: Call, k: Key) {
    && c.CommitCall? && Absent(k) in c.transaction.checks
    && exists i :: 0 <= i < |c.transaction.mutations| && Puts(c.transaction.mutations[i], k)
  }

  predicate Leaves(c: Call, k: Key) {
    match c
    case PutCall(key, _) => key != k
    case CommitCall(t) => forall i :: 0 <= i < |t.mutations| ==> t.mutations[i].key != k
  }

  /** The key is only ever created, by commits whose mutations name each key once. */
  ghost predicate OnlyCreated(cs: seq<Call>, k: Key) {
    forall i :: 0 <= i < |cs| ==>
      Leaves(cs[i], k) || (Creates(cs[i], k) && DistinctTargets(cs[i].transaction.mutations))
  }

  /** The transactions that created the key, in order. */
  function Creators(caps: Capabilities, s: State, cs: seq<Call>, k: Key): seq<Transaction>
    decreases |cs|
  {
    if cs == [] then [] else
      (if Wins(caps, s, cs[0]) && Creates(cs[0], k) then [cs[0].transaction] else [])
      + Creators(caps, Step(caps, s, cs[0]).0, cs[1..], k)
  }

  lemma CreatorLoses(caps: Capabilities, s: State, c: Call, k: Key)
    requires k in s.entries && Creates(c, k)
    ensures !Wins(caps, s, c) && Step(caps, s, c).0.entries == s.entries
  {
    var i :| 0 <= i < |c.transaction.checks| && c.transaction.checks[i] == Absent(k);
    assert !CheckHolds(s.entries, c.transaction.checks[i]);
  }

  lemma LeavesKey(caps: Capabilities, s: State, c: Call, k: Key)
    requires Leaves(c, k)
    ensures !Creates(c, k)
    ensures var s' := Step(caps, s, c).0;
            (k in s'.entries <==> k in s.entries) && (k in s.entries ==> s'.entries[k] == s.entries[k])
  {
    if c.CommitCall? { ApplyFrame(s.entries, c.transaction.mutations, k); }
  }

  /** Once present, the key keeps its value and nobody creates it again. */
  lemma {:induction false} PresentStays(caps: Capabilities, s: State, cs: seq<Call>, k: Key)
    requires k in s.entries && OnlyCreated(cs, k)
    ensures Creators(caps, s, cs, k) == []
    ensures k in Final(caps, s, cs).entries && Final(caps, s, cs).entries[k] == s.entries[k]
    decreases |cs|
  {
    if cs != [] {
      if Leaves(cs[0], k) { LeavesKey(caps, s, cs[0], k); } else { CreatorLoses(caps, s, cs[0], k); }
      PresentStays(caps, Step(caps, s, cs[0]).0, cs[1..], k);
    }
  }

  /**
   Create once: whatever the interleaving, replays and ID reuse, at most one of
   the guarded creations of an absent key wins; the key ends up holding what
   that one wrote, and stays absent iff none won.
   */
  lemma {:induction false} CreatedOnce(caps: Capabilities, s: State, cs: seq<Call>, k: Key)
    requires k !in s.entries && OnlyCreated(cs, k)
    ensures var winners, after := Creators(caps, s, cs, k), Final(caps, s, cs).entries;
            && |winners| <= 1
            && (k in after <==> winners != [])
            && (k in after ==> Put(k, after[k]) in winners[0].mutations)
    decreases |cs|
  {
    if cs != [] {
      var s' := Step(caps, s, cs[0]).0;
      if Leaves(cs[0], k) {
        LeavesKey(caps, s, cs[0], k);
        CreatedOnce(caps, s', cs[1..], k);
      } else if Wins(caps, s, cs[0]) {
        var ms := cs[0].transaction.mutations;
        var i :| 0 <= i < |ms| && Puts(ms[i], k);
        ApplyTarget(s.entries, ms, i);
        PresentStays(caps, s', cs[1..], k);
      } else {
        CreatedOnce(caps, s', cs[1..], k);
      }
    }
  }
}
