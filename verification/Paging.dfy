/**
 Byte- and item-bounded range pages with exclusive continuation cursors:
 one page, the drain of a fixed store, and a scan with commits between pages.
 */
module Paging {
  import opened Wrappers
  import opened Keys
  import opened Store
  import opened StoreRuns

  datatype Request = Request(
    start: Option<Key>, end: Option<Key>, direction: Direction,
    itemLimit: Positive, byteLimit: Positive, cursor: Option<Key>)

  datatype Entry = Entry(key: Key, value: Bytes)

  datatype Page = Page(entries: seq<Entry>, continuation: Option<Key>)

  predicate InBounds(k: Key, r: Request) {
    && (r.start.Some? ==> !Before(Forward, k, r.start.value))
    && (r.end.Some? ==> Before(Forward, k, r.end.value))
  }

  predicate AfterCursor(k: Key, r: Request) {
    r.cursor.Some? ==> Before(r.direction, r.cursor.value, k)
  }

  /** The construction checks of a range request. */
  predicate Constructible(r: Request) {
    && (r.start.Some? && r.end.Some? ==> Before(Forward, r.start.value, r.end.value))
    && (r.cursor.Some? ==> InBounds(r.cursor.value, r))
  }

  predicate KeyFits(caps: Capabilities, k: Option<Key>) {
    k.Some? ==> |k.value.bytes| <= caps.maxKeyBytes
  }

  function RangeViolation(caps: Capabilities, r: Request): Option<Error> {
    if r.itemLimit > caps.maxRangeItems then Some(CapabilityExceeded("range items"))
    else if r.byteLimit > caps.maxRangeBytes then Some(CapabilityExceeded("range bytes"))
    else if !(KeyFits(caps, r.start) && KeyFits(caps, r.end) && KeyFits(caps, r.cursor)) then
      Some(CapabilityExceeded("range key bytes"))
    else None
  }

  /** A request can be built iff its first key, if it names both bounds, and its cursor lie in its own range. */
  lemma ConstructibleIff(r: Request)
    ensures Constructible(r) <==>
              && (r.start.Some? && r.end.Some? ==> InBounds(r.start.value, r))
              && (r.cursor.Some? ==> InBounds(r.cursor.value, r))
  {
    if r.start.Some? { BeforeIrreflexive(Forward, r.start.value); }
  }

  /** A request is within the store's capabilities iff both limits and every key it names are. */
  lemma RangeAcceptedIff(caps: Capabilities, r: Request)
    ensures RangeViolation(caps, r).None? <==>
              && r.itemLimit <= caps.maxRangeItems && r.byteLimit <= caps.maxRangeBytes
              && forall k :: Some(k) in [r.start, r.end, r.cursor] ==> |k.bytes| <= caps.maxKeyBytes
  {
    if r.start.Some? { assert Some(r.start.value) in [r.start, r.end, r.cursor]; }
    if r.end.Some? { assert Some(r.end.value) in [r.start, r.end, r.cursor]; }
    if r.cursor.Some? { assert Some(r.cursor.value) in [r.start, r.end, r.cursor]; }
  }

  function Wanted(entries: Entries, r: Request): set<Key> {
    set k | k in entries && InBounds(k, r) && AfterCursor(k, r)
  }

  /** The keys a page may hold, in scan order. */
  ghost function Candidates(entries: Entries, r: Request): (ks: seq<Key>)
    ensures Sorted(r.direction, ks)
    ensures forall k :: k in ks <==> k in Wanted(entries, r)
    ensures forall i :: 0 <= i < |ks| ==> ks[i] in entries
  {
    var ks := Walk(r.direction, Wanted(entries, r));
    assert forall i :: 0 <= i < |ks| ==> ks[i] in ks;
    ks
  }

  function Size(entries: Entries, k: Key): nat
    requires k in entries
  {
    |k.bytes| + |entries[k]|
  }

  function TotalSize(entries: Entries, ks: seq<Key>): nat
    requires forall i :: 0 <= i < |ks| ==> ks[i] in entries
  {
    if ks == [] then 0 else TotalSize(entries, ks[..|ks| - 1]) + Size(entries, ks[|ks| - 1])
  }

  /** How many leading keys fit both limits. */
  function Fit(entries: Entries, ks: seq<Key>, items: nat, room: nat): (n: nat)
    requires forall i :: 0 <= i < |ks| ==> ks[i] in entries
    ensures n <= |ks| && n <= items
    decreases |ks|
  {
    if ks == [] || items == 0 || Size(entries, ks[0]) > room then 0
    else 1 + Fit(entries, ks[1..], items - 1, room - Size(entries, ks[0]))
  }

  function WithValues(entries: Entries, ks: seq<Key>): (es: seq<Entry>)
    requires forall i :: 0 <= i < |ks| ==> ks[i] in entries
    ensures |es| == |ks| && forall i :: 0 <= i < |ks| ==> es[i] == Entry(ks[i], entries[ks[i]])
  {
    if ks == [] then [] else WithValues(entries, ks[..|ks| - 1]) + [Entry(ks[|ks| - 1], entries[ks[|ks| - 1]])]
  }

  function KeysOf(es: seq<Entry>): (ks: seq<Key>)
    ensures |ks| == |es| && forall i :: 0 <= i < |es| ==> ks[i] == es[i].key
  {
    if es == [] then [] else KeysOf(es[..|es| - 1]) + [es[|es| - 1].key]
  }

  lemma KeysOfAppend(xs: seq<Entry>, ys: seq<Entry>)
    ensures KeysOf(xs + ys) == KeysOf(xs) + KeysOf(ys)
  {
  }

  ghost function ReadRange(caps: Capabilities, entries: Entries, r: Request): Result<Page, Error> {
    if RangeViolation(caps, r).Some? then Err(RangeViolation(caps, r).value) else
      var ks := Candidates(entries, r);
      if ks != [] && Size(entries, ks[0]) > r.byteLimit then Err(RangeItemTooLarge) else
        var n := Fit(entries, ks, r.itemLimit, r.byteLimit);
        Ok(Page(WithValues(entries, ks[..n]), if 0 < n < |ks| then Some(ks[n - 1]) else None))
  }

  // ----- One page

  lemma {:induction false} TotalSizeFront(entries: Entries, ks: seq<Key>)
    requires forall i :: 0 <= i < |ks| ==> ks[i] in entries
    requires ks != []
    ensures TotalSize(entries, ks) == Size(entries, ks[0]) + TotalSize(entries, ks[1..])
    decreases |ks|
  {
    var init := ks[..|ks| - 1];
    if |ks| == 1 {
      assert init == [] && ks[1..] == [];
    } else {
      TotalSizeFront(entries, init);
      assert init[1..] == ks[1..][..|ks[1..]| - 1];
    }
  }

  /** `Fit` is the longest prefix within both limits. */
  lemma {:induction false} FitExact(entries: Entries, ks: seq<Key>, items: nat, room: nat)
    requires forall i :: 0 <= i < |ks| ==> ks[i] in entries
    ensures
      var n := Fit(entries, ks, items, room);
      && TotalSize(entries, ks[..n]) <= room
      && (n < |ks| ==> n == items || TotalSize(entries, ks[..n]) + Size(entries, ks[n]) > room)
    decreases |ks|
  {
    if ks != [] && items > 0 && Size(entries, ks[0]) <= room {
      var n := Fit(entries, ks, items, room);
      FitExact(entries, ks[1..], items - 1, room - Size(entries, ks[0]));
      assert ks[..n][1..] == ks[1..][..n - 1];
      TotalSizeFront(entries, ks[..n]);
    }
  }

  /**
   A page is the longest run of leading candidates within both limits, never
   empty while candidates remain; it names a cursor, its last key, exactly when
   candidates remain beyond it.
   */
  lemma PageExact(caps: Capabilities, entries: Entries, r: Request)
    requires ReadRange(caps, entries, r).Ok?
    ensures
      var p := ReadRange(caps, entries, r).value;
      var ks := Candidates(entries, r);
      var n := |p.entries|;
      && n <= |ks| && n <= r.itemLimit
      && p.entries == WithValues(entries, ks[..n])
      && (ks != [] ==> n > 0)
      && TotalSize(entries, ks[..n]) <= r.byteLimit
      && (n < |ks| ==> n == r.itemLimit || TotalSize(entries, ks[..n]) + Size(entries, ks[n]) > r.byteLimit)
      && p.continuation == (if n < |ks| then Some(ks[n - 1]) else None)
  {
    FitExact(entries, Candidates(entries, r), r.itemLimit, r.byteLimit);
  }

  /** Continuing from the cursor leaves exactly the candidates beyond the page. */
  lemma NextCandidates(entries: Entries, r: Request, n: nat)
    requires 0 < n < |Candidates(entries, r)|
    ensures Candidates(entries, r.(cursor := Some(Candidates(entries, r)[n - 1]))) == Candidates(entries, r)[n..]
  {
    var ks := Candidates(entries, r);
    var r' := r.(cursor := Some(ks[n - 1]));
    assert ks[n - 1] in ks;
    forall k ensures k in ks[n..] <==> k in Wanted(entries, r') { ContinuedWanted(entries, r, n, k); }
    assert Sorted(r.direction, ks[n..]);
    SortedUnique(r.direction, Candidates(entries, r'), ks[n..]);
  }

  lemma ContinuedWanted(entries: Entries, r: Request, n: nat, k: Key)
    requires 0 < n <= |Candidates(entries, r)|
    ensures
      var ks := Candidates(entries, r);
      k in ks[n..] <==> k in Wanted(entries, r.(cursor := Some(ks[n - 1])))
  {
    var ks := Candidates(entries, r);
    assert ks[n - 1] in ks;
    SuffixMembers(r.direction, ks, n, k);
    if r.cursor.Some? && Before(r.direction, ks[n - 1], k) {
      BeforeTransitive(r.direction, r.cursor.value, ks[n - 1], k);
    }
  }

  // ----- Ranges side by side

  /** The request up to the split key, and the one from it on. */
  function Below(r: Request, m: Key): Request { r.(end := Some(m)) }
  function From(r: Request, m: Key): Request { r.(start := Some(m)) }

  lemma SplitWanted(entries: Entries, r: Request, m: Key, k: Key)
    requires r.start.Some? ==> !Before(Forward, m, r.start.value)
    requires r.end.Some? ==> !Before(Forward, r.end.value, m)
    ensures k in Wanted(entries, r) <==> k in Wanted(entries, Below(r, m)) || k in Wanted(entries, From(r, m))
    ensures k in Wanted(entries, Below(r, m)) ==> Before(Forward, k, m)
    ensures k in Wanted(entries, From(r, m)) ==> !Before(Forward, k, m)
  {
    if r.start.Some? { OrderChain(k, m, r.start.value); }
    if r.end.Some? { OrderChain(k, r.end.value, m); }
  }

  /** Not before, in a chain. */
  lemma OrderChain(a: Key, b: Key, c: Key)
    ensures !Before(Forward, a, b) && !Before(Forward, b, c) ==> !Before(Forward, a, c)
  {
    BeforeTotal(Forward, a, b);
    BeforeTotal(Forward, b, c);
    if Before(Forward, b, a) && Before(Forward, c, b) { BeforeTransitive(Forward, c, b, a); }
    if Before(Forward, a, c) { BeforeAsymmetric(Forward, a, c); }
  }

  /** Scanning [a, b) and then [b, c) is scanning [a, c): no key is missed and none comes twice. */
  lemma RangesJoin(entries: Entries, r: Request, m: Key)
    requires r.start.Some? ==> !Before(Forward, m, r.start.value)
    requires r.end.Some? ==> !Before(Forward, r.end.value, m)
    ensures r.direction == Forward ==>
              Candidates(entries, r) == Candidates(entries, Below(r, m)) + Candidates(entries, From(r, m))
    ensures r.direction == Reverse ==>
              Candidates(entries, r) == Candidates(entries, From(r, m)) + Candidates(entries, Below(r, m))
  {
    var low, high := Candidates(entries, Below(r, m)), Candidates(entries, From(r, m));
    forall k ensures k in Candidates(entries, r) <==> k in low || k in high { SplitWanted(entries, r, m, k); }
    forall i, j | 0 <= i < |low| && 0 <= j < |high| ensures Before(Forward, low[i], high[j]) {
      assert low[i] in low && high[j] in high;
      SplitWanted(entries, r, m, low[i]);
      SplitWanted(entries, r, m, high[j]);
      OrderChain(low[i], high[j], m);
      BeforeTotal(Forward, low[i], high[j]);
    }
    var joined := if r.direction == Forward then low + high else high + low;
    assert Sorted(r.direction, joined);
    SortedUnique(r.direction, Candidates(entries, r), joined);
  }

  // ----- Draining a fixed store

  ghost function Drain(caps: Capabilities, entries: Entries, r: Request): Result<seq<Page>, Error>
    decreases |Candidates(entries, r)|
  {
    match ReadRange(caps, entries, r)
    case Err(e) => Err(e)
    case Ok(p) =>
      if p.continuation.None? then Ok([p]) else
        PageExact(caps, entries, r);
        NextCandidates(entries, r, |p.entries|);
        match Drain(caps, entries, r.(cursor := p.continuation))
        case Err(e) => Err(e)
        case Ok(ps) => Ok([p] + ps)
  }

  function Flatten(ps: seq<Page>): seq<Entry> {
    if ps == [] then [] else ps[0].entries + Flatten(ps[1..])
  }

  predicate AllFit(entries: Entries, r: Request) {
    forall k :: k in Wanted(entries, r) ==> Size(entries, k) <= r.byteLimit
  }

  function PageBytes(es: seq<Entry>): nat {
    if es == [] then 0 else PageBytes(es[..|es| - 1]) + |es[|es| - 1].key.bytes| + |es[|es| - 1].value|
  }

  lemma {:induction false} PageBytesExact(entries: Entries, ks: seq<Key>)
    requires forall i :: 0 <= i < |ks| ==> ks[i] in entries
    ensures PageBytes(WithValues(entries, ks)) == TotalSize(entries, ks)
    decreases |ks|
  {
    if ks != [] {
      var es := WithValues(entries, ks);
      PageBytesExact(entries, ks[..|ks| - 1]);
      assert es[..|es| - 1] == WithValues(entries, ks[..|ks| - 1]);
    }
  }

  predicate PageFits(p: Page, r: Request) {
    |p.entries| <= r.itemLimit && PageBytes(p.entries) <= r.byteLimit
  }

  predicate AllPagesFit(ps: seq<Page>, r: Request) {
    forall i :: 0 <= i < |ps| ==> PageFits(ps[i], r)
  }

  lemma PrependFits(p: Page, ps: seq<Page>, r: Request, cursor: Option<Key>)
    requires PageFits(p, r) && AllPagesFit(ps, r.(cursor := cursor))
    ensures AllPagesFit([p] + ps, r)
  {
  }

  /** The pages hold exactly the wanted entries in scan order, each within both limits, with no needless page. */
  ghost predicate Drained(entries: Entries, r: Request, ps: seq<Page>) {
    && Flatten(ps) == WithValues(entries, Candidates(entries, r))
    && ps != []
    && (|ps| == 1 || |ps| <= |Candidates(entries, r)|)
    && AllPagesFit(ps, r)
  }

  /**
   Following continuations on a fixed store returns exactly the wanted entries
   in scan order, in at most as many pages as entries (one when there is none),
   every page within both limits; it fails iff some wanted entry alone exceeds the byte limit.
   */
  lemma {:induction false} DrainExact(caps: Capabilities, entries: Entries, r: Request)
    requires WithinLimits(caps, entries) && RangeViolation(caps, r) == None
    ensures AllFit(entries, r) ==> Drain(caps, entries, r).Ok? && Drained(entries, r, Drain(caps, entries, r).value)
    ensures !AllFit(entries, r) ==> Drain(caps, entries, r) == Err(RangeItemTooLarge)
    decreases |Candidates(entries, r)|
  {
    var ks := Candidates(entries, r);
    if ReadRange(caps, entries, r).Err? {
      assert ks[0] in ks;
      assert ks[0] in Wanted(entries, r);
    } else {
      var p := ReadRange(caps, entries, r).value;
      PageExact(caps, entries, r);
      if p.continuation.None? {
        LastPage(caps, entries, r);
      } else {
        var n := |p.entries|;
        assert ks[n - 1] in ks;
        NextCandidates(entries, r, n);
        DrainExact(caps, entries, r.(cursor := p.continuation));
        AllFitSplit(entries, r, n);
        if AllFit(entries, r) {
          PrependPage(caps, entries, r, Drain(caps, entries, r.(cursor := p.continuation)).value);
        }
      }
    }
  }

  lemma ReadPageFits(caps: Capabilities, entries: Entries, r: Request)
    requires ReadRange(caps, entries, r).Ok?
    ensures PageFits(ReadRange(caps, entries, r).value, r)
  {
    PageExact(caps, entries, r);
    PageBytesExact(entries, Candidates(entries, r)[..|ReadRange(caps, entries, r).value.entries|]);
  }

  lemma LastPage(caps: Capabilities, entries: Entries, r: Request)
    requires ReadRange(caps, entries, r).Ok? && ReadRange(caps, entries, r).value.continuation.None?
    ensures AllFit(entries, r) && Drained(entries, r, [ReadRange(caps, entries, r).value])
  {
    var ks := Candidates(entries, r);
    var p := ReadRange(caps, entries, r).value;
    PageExact(caps, entries, r);
    ReadPageFits(caps, entries, r);
    assert ks[..|ks|] == ks;
    PageMembersFit(entries, ks, r.byteLimit);
    forall k | k in Wanted(entries, r) ensures Size(entries, k) <= r.byteLimit {
      assert k in ks;
    }
    assert [p][1..] == [];
    assert Flatten([p]) == p.entries + [];
  }

  lemma PrependPage(caps: Capabilities, entries: Entries, r: Request, ps: seq<Page>)
    requires ReadRange(caps, entries, r).Ok? && ReadRange(caps, entries, r).value.continuation.Some?
    requires Drained(entries, r.(cursor := ReadRange(caps, entries, r).value.continuation), ps)
    ensures Drained(entries, r, [ReadRange(caps, entries, r).value] + ps)
  {
    PageExact(caps, entries, r);
    ReadPageFits(caps, entries, r);
    var p := ReadRange(caps, entries, r).value;
    NextCandidates(entries, r, |p.entries|);
    FlattenPrepend(entries, Candidates(entries, r), |p.entries|, p, ps);
    PrependFits(p, ps, r, p.continuation);
  }

  lemma FlattenPrepend(entries: Entries, ks: seq<Key>, n: nat, p: Page, ps: seq<Page>)
    requires n <= |ks| && forall i :: 0 <= i < |ks| ==> ks[i] in entries
    requires p.entries == WithValues(entries, ks[..n])
    requires Flatten(ps) == WithValues(entries, ks[n..])
    ensures Flatten([p] + ps) == WithValues(entries, ks)
  {
  }

  lemma {:induction false} PageMembersFit(entries: Entries, ks: seq<Key>, limit: nat)
    requires forall i :: 0 <= i < |ks| ==> ks[i] in entries
    requires TotalSize(entries, ks) <= limit
    ensures forall i :: 0 <= i < |ks| ==> Size(entries, ks[i]) <= limit
    decreases |ks|
  {
    if ks != [] { PageMembersFit(entries, ks[..|ks| - 1], limit); }
  }

  lemma AllFitSplit(entries: Entries, r: Request, n: nat)
    requires 0 < n < |Candidates(entries, r)|
    requires TotalSize(entries, Candidates(entries, r)[..n]) <= r.byteLimit
    ensures AllFit(entries, r) <==> AllFit(entries, r.(cursor := Some(Candidates(entries, r)[n - 1])))
  {
    var ks := Candidates(entries, r);
    var r' := r.(cursor := Some(ks[n - 1]));
    PageMembersFit(entries, ks[..n], r.byteLimit);
    forall k | k in Wanted(entries, r)
      ensures k in Wanted(entries, r') || Size(entries, k) <= r.byteLimit
    {
      assert k in ks;
      var i :| 0 <= i < |ks| && ks[i] == k;
      if i < n { assert ks[..n][i] == k; } else { assert ks[n..][i - n] == k; ContinuedWanted(entries, r, n, k); }
    }
    forall k | k in Wanted(entries, r') ensures k in Wanted(entries, r) {
      ContinuedWanted(entries, r, n, k);
      assert k in ks;
    }
  }

  // ----- A scan with any calls between its pages

  datatype ScanEnd = Finished(entries: seq<Entry>) | Failed(error: Error) | Unfinished

  ghost function Scan(caps: Capabilities, s: State, r: Request, gaps: seq<seq<Call>>): ScanEnd
    decreases |gaps|
  {
    match ReadRange(caps, s.entries, r)
    case Err(e) => Failed(e)
    case Ok(p) =>
      if p.continuation.None? then Finished(p.entries)
      else if gaps == [] then Unfinished
      else
        match Scan(caps, Final(caps, s, gaps[0]), r.(cursor := p.continuation), gaps[1..])
        case Finished(es) => Finished(p.entries + es)
        case Failed(e) => Failed(e)
        case Unfinished => Unfinished
  }

  /** The store states in which the scan reads its pages. */
  ghost function PageStates(caps: Capabilities, s: State, r: Request, gaps: seq<seq<Call>>): seq<State>
    decreases |gaps|
  {
    match ReadRange(caps, s.entries, r)
    case Err(_) => [s]
    case Ok(p) =>
      if p.continuation.None? || gaps == [] then [s]
      else [s] + PageStates(caps, Final(caps, s, gaps[0]), r.(cursor := p.continuation), gaps[1..])
  }

  /** The key is stored, with any value, each time a page is read. */
  ghost predicate PresentThroughout(caps: Capabilities, s: State, r: Request, gaps: seq<seq<Call>>, k: Key) {
    forall st :: st in PageStates(caps, s, r, gaps) ==> k in st.entries
  }

  predicate Holds(s: State, e: Entry) {
    e.key in s.entries && s.entries[e.key] == e.value
  }

  /** What a scan needs of a page: an ordered run of wanted keys that skips none up to its cursor. */
  ghost predicate Covers(entries: Entries, r: Request, p: Page) {
    && Sorted(r.direction, KeysOf(p.entries))
    && (forall i :: 0 <= i < |p.entries| ==> p.entries[i].key in Wanted(entries, r))
    && (forall i :: 0 <= i < |p.entries| ==> p.entries[i].value == entries[p.entries[i].key])
    && (p.continuation.Some? ==> p.entries != [] && p.continuation.value == p.entries[|p.entries| - 1].key)
    && (forall k :: k in Wanted(entries, r) && k !in KeysOf(p.entries) ==>
          p.continuation.Some? && Before(r.direction, p.continuation.value, k))
  }

  lemma {:induction false} PageCovers(caps: Capabilities, entries: Entries, r: Request)
    requires ReadRange(caps, entries, r).Ok?
    ensures Covers(entries, r, ReadRange(caps, entries, r).value)
  {
    var p := ReadRange(caps, entries, r).value;
    PageExact(caps, entries, r);
    PrefixCovers(entries, r, Candidates(entries, r), p);
  }

  lemma {:induction false} PrefixCovers(entries: Entries, r: Request, ks: seq<Key>, p: Page)
    requires Sorted(r.direction, ks) && |p.entries| <= |ks|
    requires forall k :: k in ks <==> k in Wanted(entries, r)
    requires forall i :: 0 <= i < |ks| ==> ks[i] in entries
    requires p.entries == WithValues(entries, ks[..|p.entries|])
    requires ks != [] ==> p.entries != []
    requires p.continuation == (if |p.entries| < |ks| then Some(ks[|p.entries| - 1]) else None)
    ensures Covers(entries, r, p)
  {
    var n := |p.entries|;
    assert KeysOf(p.entries) == ks[..n];
    forall i | 0 <= i < n ensures p.entries[i].key in Wanted(entries, r) { assert ks[i] in ks; }
    forall k | k in Wanted(entries, r) && k !in ks[..n]
      ensures p.continuation.Some? && Before(r.direction, p.continuation.value, k)
    {
      assert forall j :: 0 <= j < n ==> ks[..n][j] == ks[j];
      assert k in ks;
      var i :| 0 <= i < |ks| && ks[i] == k;
    }
  }

  /** A finished scan returns only wanted keys. */
  lemma {:induction false} ScanWanted(caps: Capabilities, s: State, r: Request, gaps: seq<seq<Call>>)
    requires Scan(caps, s, r, gaps).Finished?
    ensures
      var es := Scan(caps, s, r, gaps).entries;
      forall i :: 0 <= i < |es| ==> InBounds(es[i].key, r) && AfterCursor(es[i].key, r)
    decreases |gaps|
  {
    var p := ReadRange(caps, s.entries, r).value;
    PageCovers(caps, s.entries, r);
    if p.continuation.Some? {
      var r' := r.(cursor := p.continuation);
      var s' := Final(caps, s, gaps[0]);
      ScanWanted(caps, s', r', gaps[1..]);
      var rest := Scan(caps, s', r', gaps[1..]).entries;
      assert p.continuation.value in Wanted(s.entries, r);
      forall i | 0 <= i < |rest| ensures InBounds(rest[i].key, r) && AfterCursor(rest[i].key, r) {
        if r.cursor.Some? { BeforeTransitive(r.direction, r.cursor.value, p.continuation.value, rest[i].key); }
      }
    }
  }

  /** A finished scan returns keys strictly increasing in its direction, so none twice. */
  lemma {:induction false} ScanOrdered(caps: Capabilities, s: State, r: Request, gaps: seq<seq<Call>>)
    requires Scan(caps, s, r, gaps).Finished?
    ensures Sorted(r.direction, KeysOf(Scan(caps, s, r, gaps).entries))
    decreases |gaps|
  {
    var p := ReadRange(caps, s.entries, r).value;
    PageCovers(caps, s.entries, r);
    if p.continuation.Some? {
      var r' := r.(cursor := p.continuation);
      var s' := Final(caps, s, gaps[0]);
      ScanOrdered(caps, s', r', gaps[1..]);
      ScanWanted(caps, s', r', gaps[1..]);
      var rest := Scan(caps, s', r', gaps[1..]).entries;
      SortedAppend(r.direction, KeysOf(p.entries), KeysOf(rest));
      KeysOfAppend(p.entries, rest);
    }
  }

  /** A finished scan returns every wanted key that is present throughout it. */
  lemma {:induction false} ScanComplete(caps: Capabilities, s: State, r: Request, gaps: seq<seq<Call>>, k: Key)
    requires Scan(caps, s, r, gaps).Finished?
    requires PresentThroughout(caps, s, r, gaps, k)
    requires InBounds(k, r) && AfterCursor(k, r)
    ensures k in KeysOf(Scan(caps, s, r, gaps).entries)
    decreases |gaps|
  {
    var p := ReadRange(caps, s.entries, r).value;
    PageCovers(caps, s.entries, r);
    assert k in Wanted(s.entries, r);
    if p.continuation.Some? {
      var r' := r.(cursor := p.continuation);
      var s' := Final(caps, s, gaps[0]);
      var rest := Scan(caps, s', r', gaps[1..]).entries;
      if k !in KeysOf(p.entries) { ScanComplete(caps, s', r', gaps[1..], k); }
      KeysOfAppend(p.entries, rest);
    }
  }

  lemma PageStored(caps: Capabilities, entries: Entries, r: Request, i: nat)
    requires ReadRange(caps, entries, r).Ok? && i < |ReadRange(caps, entries, r).value.entries|
    ensures
      var e := ReadRange(caps, entries, r).value.entries[i];
      e.key in entries && entries[e.key] == e.value
  {
    PageCovers(caps, entries, r);
  }

  /** What a scan returns and visits when its first page names a continuation. */
  lemma ScanContinues(caps: Capabilities, s: State, r: Request, gaps: seq<seq<Call>>)
    requires Scan(caps, s, r, gaps).Finished? && ReadRange(caps, s.entries, r).value.continuation.Some?
    ensures
      var p := ReadRange(caps, s.entries, r).value;
      && gaps != []
      && var s', r' := Final(caps, s, gaps[0]), r.(cursor := p.continuation);
      && Scan(caps, s', r', gaps[1..]).Finished?
      && Scan(caps, s, r, gaps).entries == p.entries + Scan(caps, s', r', gaps[1..]).entries
      && PageStates(caps, s, r, gaps) == [s] + PageStates(caps, s', r', gaps[1..])
  {
  }

  /** The entries of the first page were stored when the scan began. */
  lemma FirstPageTruthful(caps: Capabilities, s: State, r: Request, gaps: seq<seq<Call>>, i: nat)
    requires Scan(caps, s, r, gaps).Finished? && i < |ReadRange(caps, s.entries, r).value.entries|
    ensures i < |Scan(caps, s, r, gaps).entries|
    ensures s in PageStates(caps, s, r, gaps) && Holds(s, Scan(caps, s, r, gaps).entries[i])
  {
    PageStored(caps, s.entries, r, i);
  }

  /** What holds of a later page's entry holds of it in the whole scan. */
  lemma LaterPageTruthful(caps: Capabilities, s: State, r: Request, gaps: seq<seq<Call>>, i: nat, at: State)
    requires Scan(caps, s, r, gaps).Finished? && ReadRange(caps, s.entries, r).value.continuation.Some? && gaps != []
    requires
      var s', r' := Final(caps, s, gaps[0]), r.(cursor := ReadRange(caps, s.entries, r).value.continuation);
      && Scan(caps, s', r', gaps[1..]).Finished? && i < |Scan(caps, s', r', gaps[1..]).entries|
      && at in PageStates(caps, s', r', gaps[1..]) && Holds(at, Scan(caps, s', r', gaps[1..]).entries[i])
    ensures
      var n := |ReadRange(caps, s.entries, r).value.entries| + i;
      && n < |Scan(caps, s, r, gaps).entries|
      && at in PageStates(caps, s, r, gaps) && Holds(at, Scan(caps, s, r, gaps).entries[n])
  {
    ScanContinues(caps, s, r, gaps);
  }

  /** The scan got its first page; past that page's entries there is a continuation. */
  lemma ScanReads(caps: Capabilities, s: State, r: Request, gaps: seq<seq<Call>>)
    requires Scan(caps, s, r, gaps).Finished?
    ensures ReadRange(caps, s.entries, r).Ok?
    ensures var p := ReadRange(caps, s.entries, r).value;
            p.continuation.None? ==> Scan(caps, s, r, gaps).entries == p.entries
  {
  }

  /** Every returned entry was stored, with that value, when one of the pages was read. */
  lemma {:induction false} ScanTruthful(caps: Capabilities, s: State, r: Request, gaps: seq<seq<Call>>, i: nat)
      returns (at: State)
    requires Scan(caps, s, r, gaps).Finished?
    requires i < |Scan(caps, s, r, gaps).entries|
    ensures at in PageStates(caps, s, r, gaps) && Holds(at, Scan(caps, s, r, gaps).entries[i])
    decreases |gaps|
  {
    ScanReads(caps, s, r, gaps);
    var p := ReadRange(caps, s.entries, r).value;
    if i < |p.entries| {
      FirstPageTruthful(caps, s, r, gaps, i);
      at := s;
    } else {
      ScanContinues(caps, s, r, gaps);
      var j := i - |p.entries|;
      at := ScanTruthful(caps, Final(caps, s, gaps[0]), r.(cursor := p.continuation), gaps[1..], j);
      LaterPageTruthful(caps, s, r, gaps, j, at);
    }
  }
}
