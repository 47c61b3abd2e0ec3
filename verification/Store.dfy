/**
 The checked key/value store: transactions, capability validation and the
 effect of one `put` or `commit` on the stored entries and the table of
 recorded commits.
 */
module Store {
  import opened Wrappers
  import opened Keys

  type OperationId = nat
  type Entries = map<Key, Bytes>

  datatype Check = Absent(key: Key) | Value(key: Key, expected: Bytes)

  datatype Mutation = Put(key: Key, value: Bytes) | Delete(key: Key)

  datatype Limits = Limits(maxChecks: nat, maxMutations: nat, maxBytes: nat)

  datatype Transaction = Transaction(
    id: OperationId, checks: seq<Check>, mutations: seq<Mutation>, limits: Limits)

  datatype Outcome = Committed | Conflict | Unknown

  datatype Error = CapabilityExceeded(field: string) | RangeItemTooLarge | OperationReused

  datatype Capabilities = Capabilities(
    maxKeyBytes: nat, maxValueBytes: nat,
    maxTransactionBytes: nat, maxTransactionKeys: nat,
    maxRangeItems: nat, maxRangeBytes: nat)

  datatype Recorded = Recorded(transaction: Transaction, outcome: Outcome)

  datatype State = State(entries: Entries, commits: map<OperationId, Recorded>)

  // ----- Capability validation

  function CheckValue(c: Check): Bytes {
    match c case Absent(_) => [] case Value(_, expected) => expected
  }

  function MutationValue(m: Mutation): Bytes {
    match m case Put(_, value) => value case Delete(_) => []
  }

  function ChecksBytes(cs: seq<Check>): nat {
    if cs == [] then 0 else |cs[0].key.bytes| + |CheckValue(cs[0])| + ChecksBytes(cs[1..])
  }

  function MutationsBytes(ms: seq<Mutation>): nat {
    if ms == [] then 0 else |ms[0].key.bytes| + |MutationValue(ms[0])| + MutationsBytes(ms[1..])
  }

  predicate KeysFit(t: Transaction, limit: nat) {
    && (forall c :: c in t.checks ==> |c.key.bytes| <= limit)
    && (forall m :: m in t.mutations ==> |m.key.bytes| <= limit)
  }

  predicate ValuesFit(t: Transaction, limit: nat) {
    && (forall c :: c in t.checks ==> |CheckValue(c)| <= limit)
    && (forall m :: m in t.mutations ==> |MutationValue(m)| <= limit)
  }

  /** The first capability the transaction exceeds, if any. */
  function Violation(caps: Capabilities, t: Transaction): Option<Error> {
    if |t.checks| + |t.mutations| > caps.maxTransactionKeys then
      Some(CapabilityExceeded("transaction keys"))
    else if ChecksBytes(t.checks) + MutationsBytes(t.mutations) > caps.maxTransactionBytes then
      Some(CapabilityExceeded("transaction bytes"))
    else if !KeysFit(t, caps.maxKeyBytes) then
      Some(CapabilityExceeded("key bytes"))
    else if !ValuesFit(t, caps.maxValueBytes) then
      Some(CapabilityExceeded("value bytes"))
    else
      None
  }

  predicate Accepted(caps: Capabilities, t: Transaction) {
    Violation(caps, t) == None
  }

  /** What a transaction sends, item by item: the key and value bytes of each check and mutation. */
  function Payload(t: Transaction): seq<(nat, nat)> {
    CheckItems(t.checks) + MutationItems(t.mutations)
  }

  function CheckItems(cs: seq<Check>): seq<(nat, nat)> {
    seq(|cs|, i requires 0 <= i < |cs| => (|cs[i].key.bytes|, |CheckValue(cs[i])|))
  }

  function MutationItems(ms: seq<Mutation>): seq<(nat, nat)> {
    seq(|ms|, i requires 0 <= i < |ms| => (|ms[i].key.bytes|, |MutationValue(ms[i])|))
  }

  function Total(items: seq<(nat, nat)>): nat {
    if items == [] then 0 else items[0].0 + items[0].1 + Total(items[1..])
  }

  lemma {:induction false} TotalSplit(a: seq<(nat, nat)>, b: seq<(nat, nat)>)
    ensures Total(a + b) == Total(a) + Total(b)
    decreases |a|
  {
    if a == [] {
      assert a + b == b;
    } else {
      assert (a + b)[1..] == a[1..] + b;
      TotalSplit(a[1..], b);
    }
  }

  lemma {:induction false} ChecksTotal(cs: seq<Check>)
    ensures ChecksBytes(cs) == Total(CheckItems(cs))
    decreases |cs|
  {
    if cs != [] {
      ChecksTotal(cs[1..]);
      assert CheckItems(cs)[1..] == CheckItems(cs[1..]);
    }
  }

  lemma {:induction false} MutationsTotal(ms: seq<Mutation>)
    ensures MutationsBytes(ms) == Total(MutationItems(ms))
    decreases |ms|
  {
    if ms != [] {
      MutationsTotal(ms[1..]);
      assert MutationItems(ms)[1..] == MutationItems(ms[1..]);
    }
  }

  predicate ItemsFit(items: seq<(nat, nat)>, key: nat, value: nat) {
    forall i :: 0 <= i < |items| ==> items[i].0 <= key && items[i].1 <= value
  }

  lemma ItemsFitIff(t: Transaction, key: nat, value: nat)
    ensures ItemsFit(CheckItems(t.checks), key, value) && ItemsFit(MutationItems(t.mutations), key, value) <==>
              KeysFit(t, key) && ValuesFit(t, value)
  {
    if ItemsFit(CheckItems(t.checks), key, value) && ItemsFit(MutationItems(t.mutations), key, value) {
      forall c | c in t.checks ensures |c.key.bytes| <= key && |CheckValue(c)| <= value {
        var i :| 0 <= i < |t.checks| && t.checks[i] == c;
        assert CheckItems(t.checks)[i].0 <= key;
      }
      forall m | m in t.mutations ensures |m.key.bytes| <= key && |MutationValue(m)| <= value {
        var i :| 0 <= i < |t.mutations| && t.mutations[i] == m;
        assert MutationItems(t.mutations)[i].0 <= key;
      }
    }
  }

  lemma ItemsFitSplit(a: seq<(nat, nat)>, b: seq<(nat, nat)>, key: nat, value: nat)
    ensures ItemsFit(a + b, key, value) <==> ItemsFit(a, key, value) && ItemsFit(b, key, value)
  {
    if ItemsFit(a + b, key, value) {
      forall i | 0 <= i < |a| ensures a[i].0 <= key && a[i].1 <= value { assert (a + b)[i] == a[i]; }
      forall i | 0 <= i < |b| ensures b[i].0 <= key && b[i].1 <= value { assert (a + b)[|a| + i] == b[i]; }
    }
  }

  /** A transaction is accepted iff its items, their bytes together and each key and value are within the limits. */
  lemma AcceptedIff(caps: Capabilities, t: Transaction)
    ensures Accepted(caps, t) <==>
              && |Payload(t)| <= caps.maxTransactionKeys && Total(Payload(t)) <= caps.maxTransactionBytes
              && ItemsFit(Payload(t), caps.maxKeyBytes, caps.maxValueBytes)
  {
    ChecksTotal(t.checks);
    MutationsTotal(t.mutations);
    TotalSplit(CheckItems(t.checks), MutationItems(t.mutations));
    ItemsFitIff(t, caps.maxKeyBytes, caps.maxValueBytes);
    ItemsFitSplit(CheckItems(t.checks), MutationItems(t.mutations), caps.maxKeyBytes, caps.maxValueBytes);
  }

  // ----- Checks and mutations

  predicate CheckHolds(entries: Entries, c: Check) {
    match c
    case Absent(key) => key !in entries
    case Value(key, expected) => key in entries && entries[key] == expected
  }

  predicate ChecksMatch(entries: Entries, checks: seq<Check>) {
    forall i :: 0 <= i < |checks| ==> CheckHolds(entries, checks[i])
  }

  function ApplyOne(entries: Entries, m: Mutation): Entries {
    match m
    case Put(key, value) => entries[key := value]
    case Delete(key) => entries - {key}
  }

  function Apply(entries: Entries, ms: seq<Mutation>): Entries {
    if ms == [] then entries else ApplyOne(Apply(entries, ms[..|ms| - 1]), ms[|ms| - 1])
  }

  /** A transaction names each key at most once among its mutations. */
  ghost predicate DistinctTargets(ms: seq<Mutation>) {
    forall i, j :: 0 <= i < j < |ms| ==> ms[i].key != ms[j].key
  }

  /** A key no mutation names keeps its presence and its value. */
  lemma {:induction false} ApplyFrame(entries: Entries, ms: seq<Mutation>, k: Key)
    requires forall i :: 0 <= i < |ms| ==> ms[i].key != k
    ensures k in Apply(entries, ms) <==> k in entries
    ensures k in entries ==> Apply(entries, ms)[k] == entries[k]
    decreases |ms|
  {
    if ms != [] {
      var before := ms[..|ms| - 1];
      forall i | 0 <= i < |before| ensures before[i].key != k { assert before[i] == ms[i]; }
      ApplyFrame(entries, before, k);
      assert ms[|ms| - 1].key != k;
    }
  }

  /** With distinct targets every mutation takes effect, whatever its position. */
  lemma {:induction false} ApplyTarget(entries: Entries, ms: seq<Mutation>, i: nat)
    requires DistinctTargets(ms) && i < |ms|
    ensures ms[i].Put? ==> ms[i].key in Apply(entries, ms) && Apply(entries, ms)[ms[i].key] == ms[i].value
    ensures ms[i].Delete? ==> ms[i].key !in Apply(entries, ms)
    decreases |ms|
  {
    var before := ms[..|ms| - 1];
    if i < |before| {
      ApplyTarget(entries, before, i);
      assert ms[i].key != ms[|ms| - 1].key;
    }
  }

  // ----- One call

  function PutStep(caps: Capabilities, s: State, key: Key, value: Bytes): (State, Result<(), Error>) {
    if |key.bytes| > caps.maxKeyBytes then
      (s, Err(CapabilityExceeded("key bytes")))
    else if |value| > caps.maxValueBytes then
      (s, Err(CapabilityExceeded("value bytes")))
    else
      (s.(entries := s.entries[key := value]), Ok(()))
  }

  function CommitStep(caps: Capabilities, s: State, t: Transaction): (State, Result<Outcome, Error>) {
    if !Accepted(caps, t) then
      (s, Err(Violation(caps, t).value))
    else if t.id in s.commits then
      (s, if s.commits[t.id].transaction == t then Ok(s.commits[t.id].outcome) else Err(OperationReused))
    else if !ChecksMatch(s.entries, t.checks) then
      (s.(commits := s.commits[t.id := Recorded(t, Conflict)]), Ok(Conflict))
    else
      (State(Apply(s.entries, t.mutations), s.commits[t.id := Recorded(t, Committed)]), Ok(Committed))
  }

  /** What the checks ask of the stored entries. */
  ghost predicate Demanded(entries: Entries, checks: seq<Check>) {
    && (forall k :: Absent(k) in checks ==> k !in entries)
    && (forall k, v :: Value(k, v) in checks ==> k in entries && entries[k] == v)
  }

  /**
   A new accepted transaction commits iff every key it wants absent is missing
   and every value it expects is stored; otherwise it conflicts and the entries
   stay as they are.
   */
  lemma CommitsIff(caps: Capabilities, s: State, t: Transaction)
    requires Accepted(caps, t) && t.id !in s.commits
    ensures CommitStep(caps, s, t).1 == Ok(if Demanded(s.entries, t.checks) then Committed else Conflict)
    ensures !Demanded(s.entries, t.checks) ==> CommitStep(caps, s, t).0.entries == s.entries
  {
    if ChecksMatch(s.entries, t.checks) {
      forall c | c in t.checks ensures CheckHolds(s.entries, c) {}
    } else {
      var i :| 0 <= i < |t.checks| && !CheckHolds(s.entries, t.checks[i]);
      assert t.checks[i] in t.checks;
    }
  }

  /** Everything stored is within the declared limits. */
  ghost predicate WithinLimits(caps: Capabilities, entries: Entries) {
    forall k :: k in entries ==> |k.bytes| <= caps.maxKeyBytes && |entries[k]| <= caps.maxValueBytes
  }

  lemma {:induction false} ApplyWithinLimits(caps: Capabilities, entries: Entries, ms: seq<Mutation>)
    requires WithinLimits(caps, entries)
    requires forall m :: m in ms ==> |m.key.bytes| <= caps.maxKeyBytes && |MutationValue(m)| <= caps.maxValueBytes
    ensures WithinLimits(caps, Apply(entries, ms))
    decreases |ms|
  {
    if ms != [] {
      ApplyWithinLimits(caps, entries, ms[..|ms| - 1]);
      assert ms[|ms| - 1] in ms;
    }
  }

  /** A put succeeds iff its key and value are within the limits; so stored entries stay within them. */
  lemma PutIff(caps: Capabilities, s: State, key: Key, value: Bytes)
    ensures
      var (s', r) := PutStep(caps, s, key, value);
      && (r.Ok? <==> |key.bytes| <= caps.maxKeyBytes && |value| <= caps.maxValueBytes)
      && (r.Ok? ==> s'.entries == s.entries[key := value]) && (r.Err? ==> s' == s)
      && s'.commits == s.commits
      && (WithinLimits(caps, s.entries) ==> WithinLimits(caps, s'.entries))
  {
  }

  lemma CommitKeepsLimits(caps: Capabilities, s: State, t: Transaction)
    requires WithinLimits(caps, s.entries)
    ensures WithinLimits(caps, CommitStep(caps, s, t).0.entries)
  {
    if Accepted(caps, t) { ApplyWithinLimits(caps, s.entries, t.mutations); }
  }
}
