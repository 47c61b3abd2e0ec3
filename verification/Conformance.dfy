/**
 The range proof of the conformance suite, run against the reference store: the
 page validator and the bounded continuation loop.
 */
module Conformance {
  import opened Wrappers
  import opened Keys
  import opened Store
  import opened Paging
  import opened StoreModel

  datatype Report = Report(assertions: nat, ranges: nat)

  datatype Refusal = StoreFailure(error: Error) | Invalid(message: string)

  predicate Windowed(dir: Direction, es: seq<Entry>) {
    forall i :: 0 <= i < |es| - 1 ==> Before(dir, es[i].key, es[i + 1].key)
  }

  /** The first complaint about a page, if any. */
  function PageComplaint(p: Page, r: Request): Option<string> {
    if p.entries == [] || |p.entries| > r.itemLimit then Some("range page item bound changed")
    else if PageBytes(p.entries) > r.byteLimit then Some("range page byte bound changed")
    else if !Windowed(r.direction, p.entries) then Some("range page order changed")
    else None
  }

  /**
   What the validator accepts of any store: a page with an entry, within both
   limits, whose keys are in scan order throughout, though only neighbours are compared.
   */
  lemma AcceptedPageIff(p: Page, r: Request)
    ensures PageComplaint(p, r).None? <==>
              p.entries != [] && PageFits(p, r) && Sorted(r.direction, KeysOf(p.entries))
  {
    if Windowed(r.direction, p.entries) {
      WindowedSorted(r.direction, p.entries, |p.entries|);
      assert p.entries[..|p.entries|] == p.entries;
    } else {
      var ks := KeysOf(p.entries);
      var i :| 0 <= i < |p.entries| - 1 && !Before(r.direction, p.entries[i].key, p.entries[i + 1].key);
      assert !Before(r.direction, ks[i], ks[i + 1]);
    }
  }

  lemma {:induction false} WindowedSorted(dir: Direction, es: seq<Entry>, n: nat)
    requires Windowed(dir, es) && n <= |es|
    ensures Sorted(dir, KeysOf(es[..n]))
  {
    if n > 1 {
      WindowedSorted(dir, es, n - 1);
      var ks := KeysOf(es[..n]);
      forall i, j | 0 <= i < j < n ensures Before(dir, ks[i], ks[j]) {
        if j < n - 1 {
          assert ks[i] == KeysOf(es[..n - 1])[i] && ks[j] == KeysOf(es[..n - 1])[j];
        } else if i < n - 2 {
          assert ks[i] == KeysOf(es[..n - 1])[i] && ks[n - 2] == KeysOf(es[..n - 1])[n - 2];
          assert Before(dir, es[n - 2].key, es[n - 1].key);
          BeforeTransitive(dir, ks[i], ks[n - 2], ks[j]);
        } else {
          assert Before(dir, es[i].key, es[i + 1].key);
        }
      }
    }
  }

  /** The range over every key with the given prefix, up to the prefix followed by 0xff. */
  function PrefixRequest(prefix: Bytes, dir: Direction, itemLimit: Positive, byteLimit: Positive): Request {
    Request(Some(Key(prefix)), Some(Key(prefix + [255])), dir, itemLimit, byteLimit, None)
  }

  lemma {:induction false} PrefixLess(prefix: Bytes, b: Byte)
    ensures Less(prefix, prefix + [b])
    decreases |prefix|
  {
    if prefix != [] {
      assert (prefix + [b])[1..] == prefix[1..] + [b];
      PrefixLess(prefix[1..], b);
    }
  }

  lemma {:induction false} LessThanPrefix(k: Bytes, prefix: Bytes)
    ensures Less(k, prefix + [255]) && !Less(k, prefix) <==>
              prefix <= k && (k == prefix || k[|prefix|] < 255)
    decreases |prefix|
  {
    if prefix != [] && k != [] && k[0] == prefix[0] {
      LessThanPrefix(k[1..], prefix[1..]);
      assert (prefix + [255])[1..] == prefix[1..] + [255];
      assert prefix <= k <==> prefix[1..] <= k[1..];
      assert k == prefix <==> k[1..] == prefix[1..];
    }
  }

  /**
   The range of the suite holds exactly the keys that extend the prefix, except
   those whose next byte is the last one.
   */
  lemma PrefixRange(prefix: Bytes, dir: Direction, itemLimit: Positive, byteLimit: Positive, k: Key)
    ensures InBounds(k, PrefixRequest(prefix, dir, itemLimit, byteLimit)) <==>
              prefix <= k.bytes && (k.bytes == prefix || k.bytes[|prefix|] < 255)
  {
    LessThanPrefix(k.bytes, prefix);
  }

  // ----- The reference store's pages pass the validator

  lemma ReferencePageValid(caps: Capabilities, entries: Entries, r: Request)
    requires ReadRange(caps, entries, r).Ok?
    ensures PageComplaint(ReadRange(caps, entries, r).value, r).None? <==> Candidates(entries, r) != []
  {
    var p := ReadRange(caps, entries, r).value;
    var ks := Candidates(entries, r);
    PageExact(caps, entries, r);
    PageBytesExact(entries, ks[..|p.entries|]);
    assert Windowed(r.direction, p.entries) by {
      forall i | 0 <= i < |p.entries| - 1 ensures Before(r.direction, p.entries[i].key, p.entries[i + 1].key) {
        assert p.entries[i].key == ks[i] && p.entries[i + 1].key == ks[i + 1];
      }
    }
  }

  /** The loop position: `seen` keys read, `request` asking for the rest. */
  ghost predicate Position(entries: Entries, first: Request, request: Request, seen: seq<Key>) {
    && request == first.(cursor := request.cursor)
    && Candidates(entries, first) == seen + Candidates(entries, request)
    && (AllFit(entries, first) <==> AllFit(entries, request))
  }

  /** A last page ends the walk. */
  lemma Finish(caps: Capabilities, entries: Entries, first: Request, request: Request, seen: seq<Key>)
    requires Position(entries, first, request, seen)
    requires ReadRange(caps, entries, request).Ok? && ReadRange(caps, entries, request).value.continuation.None?
    ensures AllFit(entries, first)
    ensures Candidates(entries, first) == seen + KeysOf(ReadRange(caps, entries, request).value.entries)
  {
    var p := ReadRange(caps, entries, request).value;
    var ks := Candidates(entries, request);
    PageExact(caps, entries, request);
    LastPage(caps, entries, request);
    assert ks[..|p.entries|] == ks;
    assert KeysOf(p.entries) == ks;
  }

  /** Any other page moves the position by its keys and leaves some. */
  lemma Advance(caps: Capabilities, entries: Entries, first: Request, request: Request, seen: seq<Key>)
    requires Position(entries, first, request, seen)
    requires ReadRange(caps, entries, request).Ok? && ReadRange(caps, entries, request).value.continuation.Some?
    ensures
      var p := ReadRange(caps, entries, request).value;
      && p.entries != [] && p.continuation.value == p.entries[|p.entries| - 1].key
      && p.continuation.value in Wanted(entries, request)
      && Position(entries, first, request.(cursor := p.continuation), seen + KeysOf(p.entries))
      && Candidates(entries, request.(cursor := p.continuation)) != []
  {
    var p := ReadRange(caps, entries, request).value;
    var ks := Candidates(entries, request);
    PageExact(caps, entries, request);
    var n := |p.entries|;
    NextCandidates(entries, request, n);
    AllFitSplit(entries, request, n);
    assert ks[n - 1] in ks;
    Regroup(seen, ks, n, p.entries);
  }

  lemma Regroup(seen: seq<Key>, ks: seq<Key>, n: nat, es: seq<Entry>)
    requires n == |es| <= |ks| && forall i :: 0 <= i < n ==> es[i].key == ks[i]
    ensures seen + ks == (seen + KeysOf(es)) + ks[n..]
  {
  }

  /** What the loop is meant to accept: a non-empty expectation that is the range, every entry of which fits. */
  ghost predicate Meets(caps: Capabilities, entries: Entries, first: Request, expected: seq<Key>) {
    && RangeViolation(caps, first) == None
    && expected != []
    && expected == Candidates(entries, first)
    && AllFit(entries, first)
  }

  /** The loop after `pages` pages, with more to read. */
  ghost predicate Ongoing(
    caps: Capabilities, entries: Entries, first: Request, request: Request, seen: seq<Key>, pages: nat)
  {
    && Position(entries, first, request, seen)
    && pages <= |seen|
    && (pages == 0 ==> request == first)
    && (pages > 0 ==> Allowed(caps, first) && Allowed(caps, request) && Candidates(entries, request) != [])
  }

  predicate Allowed(caps: Capabilities, r: Request) {
    Constructible(r) && RangeViolation(caps, r) == None
  }

  lemma RefusedRead(caps: Capabilities, entries: Entries, first: Request, request: Request,
                    seen: seq<Key>, pages: nat, expected: seq<Key>)
    requires Ongoing(caps, entries, first, request, seen, pages)
    requires ReadRange(caps, entries, request).Err?
    ensures !Meets(caps, entries, first, expected)
  {
  }

  lemma RefusedPage(caps: Capabilities, entries: Entries, first: Request, request: Request,
                    seen: seq<Key>, pages: nat, expected: seq<Key>)
    requires Ongoing(caps, entries, first, request, seen, pages)
    requires ReadRange(caps, entries, request).Ok?
    requires PageComplaint(ReadRange(caps, entries, request).value, request).Some?
    ensures !Meets(caps, entries, first, expected)
  {
    ReferencePageValid(caps, entries, request);
  }

  /** An accepted page either finishes the walk or leaves it ongoing. */
  lemma PageStep(caps: Capabilities, entries: Entries, first: Request, request: Request, seen: seq<Key>, pages: nat)
    requires WithinLimits(caps, entries) && Constructible(request)
    requires Ongoing(caps, entries, first, request, seen, pages)
    requires ReadRange(caps, entries, request).Ok?
    requires PageComplaint(ReadRange(caps, entries, request).value, request).None?
    ensures
      var p := ReadRange(caps, entries, request).value;
      && p.entries != []
      && Allowed(caps, first)
      && (p.continuation.None? ==> Meets(caps, entries, first, seen + KeysOf(p.entries)))
      && (p.continuation.Some? ==>
            && p.continuation.value == p.entries[|p.entries| - 1].key
            && Ongoing(caps, entries, first, request.(cursor := p.continuation), seen + KeysOf(p.entries), pages + 1))
  {
    var p := ReadRange(caps, entries, request).value;
    assert Allowed(caps, request);
    if p.continuation.None? {
      Finish(caps, entries, first, request, seen);
    } else {
      Advance(caps, entries, first, request, seen);
    }
  }

  /**
   The continuation loop accepts the reference store iff the expectation is
   non-empty, equals the range in scan order, and every entry of it fits.
   */
  method CheckDirection(store: StoreModel, first: Request, expected: seq<Key>, report: Report)
      returns (r: Result<Report, Refusal>)
    requires WithinLimits(store.caps, store.entries)
    requires first.cursor == None
    ensures r.Ok? <==> Constructible(first) && Meets(store.caps, store.entries, first, expected)
    ensures r.Ok? ==> r.value.assertions == report.assertions + 2
    ensures r.Ok? ==> report.ranges < r.value.ranges <= report.ranges + |expected|
  {
    var request, seen, finished, pages := first, [], false, 0;
    assert seen + Candidates(store.entries, first) == Candidates(store.entries, first);
    while pages <= |expected| && !finished
      invariant pages <= |expected| + 1 && pages <= |seen|
      invariant !finished ==> Ongoing(store.caps, store.entries, first, request, seen, pages)
      invariant finished ==> pages > 0 && Constructible(first) && Meets(store.caps, store.entries, first, seen)
      decreases |expected| + 1 - pages
    {
      if !Constructible(request) {
        return Err(Invalid("range request"));
      }
      var read := store.ReadRange(request);
      if read.Err? {
        RefusedRead(store.caps, store.entries, first, request, seen, pages, expected);
        return Err(StoreFailure(read.error));
      }
      var page := read.value;
      var complaint := PageComplaint(page, request);
      if complaint.Some? {
        RefusedPage(store.caps, store.entries, first, request, seen, pages, expected);
        return Err(Invalid(complaint.value));
      }
      PageStep(store.caps, store.entries, first, request, seen, pages);
      seen := seen + KeysOf(page.entries);
      pages := pages + 1;
      match page.continuation {
        case None => finished := true;
        case Some(cursor) =>
          if cursor != page.entries[|page.entries| - 1].key {
            return Err(Invalid("range continuation did not identify the last entry"));
          }
          request := request.(cursor := Some(cursor));
      }
    }
    if !finished {
      return Err(Invalid("range continuation exceeded proof bound"));
    }
    if seen != expected {
      return Err(Invalid("range order, bounds, or continuation changed"));
    }
    r := Ok(Report(report.assertions + 2, report.ranges + pages));
  }

  /** For every prefix the suite's own range request is one the store can be asked. */
  lemma PrefixRequestConstructible(prefix: Bytes, dir: Direction, itemLimit: Positive, byteLimit: Positive)
    ensures Constructible(PrefixRequest(prefix, dir, itemLimit, byteLimit))
  {
    PrefixLess(prefix, 255);
  }
}
