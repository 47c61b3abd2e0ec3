/**
 Per-item classification of a batch response: one verdict per active attempt,
 with omissions and duplicates turned into retries of the affected item only.
 The status table is a parameter: `classify` gives the classification of one
 response, and `retry` is the classification for a broken response set.
 */
module Batch {
  import opened Collections
  import opened Wrappers

  type AttemptId = nat

  datatype Response<R> = Response(id: AttemptId, reply: R)

  datatype Error = BatchInvariant

  /** The replies that name one item, in arrival order. */
  function Replies<R>(responses: seq<Response<R>>, id: AttemptId): seq<R> {
    if responses == [] then []
    else
      var rest := responses[..|responses| - 1];
      var last := responses[|responses| - 1];
      if last.id == id then Replies(rest, id) + [last.reply] else Replies(rest, id)
  }

  /** The verdict an item deserves: its own classification iff exactly one response names it. */
  function Verdict<R, C>(responses: seq<Response<R>>, id: AttemptId, classify: R -> C, retry: C): C {
    var replies := Replies(responses, id);
    if |replies| == 1 then classify(replies[0]) else retry
  }

  predicate AllKnown<R>(items: seq<AttemptId>, responses: seq<Response<R>>) {
    forall i :: 0 <= i < |responses| ==> responses[i].id in items
  }

  /** What the table holds for an item after some of the responses. */
  ghost function Slot<R, C>(responses: seq<Response<R>>, id: AttemptId, classify: R -> C, retry: C): Option<C> {
    if Replies(responses, id) == [] then None else Some(Verdict(responses, id, classify, retry))
  }

  /** The table has one slot per item, holding what the responses so far deserve. */
  ghost predicate Tabled<R, C>(
    table: map<AttemptId, Option<C>>, items: seq<AttemptId>, responses: seq<Response<R>>, classify: R -> C, retry: C)
  {
    && (forall id :: id in table <==> id in items)
    && (forall id :: id in table ==> table[id] == Slot(responses, id, classify, retry))
  }

  lemma TabledStep<R, C>(
    table: map<AttemptId, Option<C>>, items: seq<AttemptId>, responses: seq<Response<R>>, x: Response<R>,
    classify: R -> C, retry: C)
    requires Tabled(table, items, responses, classify, retry) && x.id in table
    ensures var slot := Some(if table[x.id].Some? then retry else classify(x.reply));
            Tabled(table[x.id := slot], items, responses + [x], classify, retry)
  {
  }

  /** Opens one empty slot per item; fails iff an item repeats. */
  method OpenSlots<C>(items: seq<AttemptId>) returns (result: Result<map<AttemptId, Option<C>>, Error>)
    ensures result.Ok? <==> Distinct(items)
    ensures result.Ok? ==> (forall id :: id in result.value <==> id in items)
    ensures result.Ok? ==> (forall id :: id in result.value ==> result.value[id] == None)
  {
    var table: map<AttemptId, Option<C>> := map[];
    for i := 0 to |items|
      invariant Distinct(items[..i])
      invariant forall id :: id in table <==> id in items[..i]
      invariant forall id :: id in table ==> table[id] == None
    {
      if items[i] in table {
        var j :| 0 <= j < i && items[..i][j] == items[i];
        return Err(BatchInvariant);
      }
      table := table[items[i] := None];
    }
    result := Ok(table);
  }

  /** Fails iff an item repeats or a response names no item; otherwise fills every slot. */
  method ClassifyResponses<R, C>(items: seq<AttemptId>, responses: seq<Response<R>>, classify: R -> C, retry: C)
    returns (result: Result<map<AttemptId, Option<C>>, Error>)
    ensures result.Ok? <==> Distinct(items) && AllKnown(items, responses)
    ensures result.Ok? ==> Tabled(result.value, items, responses, classify, retry)
  {
    var slots := OpenSlots<C>(items);
    if slots.Err? {
      return Err(BatchInvariant);
    }
    var table: map<AttemptId, Option<C>> := slots.value;
    for i := 0 to |responses|
      invariant AllKnown(items, responses[..i])
      invariant Tabled(table, items, responses[..i], classify, retry)
    {
      var response := responses[i];
      if response.id !in table {
        return Err(BatchInvariant);
      }
      var classification := classify(response.reply);
      TabledStep(table, items, responses[..i], response, classify, retry);
      assert responses[..i + 1] == responses[..i] + [response];
      table := table[response.id := Some(if table[response.id].Some? then retry else classification)];
    }
    assert responses[..|responses|] == responses;
    result := Ok(table);
  }

  /** One verdict per item, in item order. */
  method ClassifyItems<R, C>(items: seq<AttemptId>, responses: seq<Response<R>>, classify: R -> C, retry: C)
    returns (result: Result<seq<(AttemptId, C)>, Error>)
    ensures result.Ok? <==> Distinct(items) && AllKnown(items, responses)
    ensures result.Ok? ==> result.value == seq(|items|, i requires 0 <= i < |items| =>
                             (items[i], Verdict(responses, items[i], classify, retry)))
  {
    var results := ClassifyResponses(items, responses, classify, retry);
    if results.Err? {
      return Err(BatchInvariant);
    }
    var table := results.value;
    assert forall i :: 0 <= i < |items| ==> items[i] in table;
    result := Ok(seq(|items|, i requires 0 <= i < |items| =>
      (items[i], if table[items[i]].Some? then table[items[i]].value else retry)));
  }

  // ----- Order does not matter, and items do not disturb each other

  lemma {:induction false} RepliesCount<R(!new)>(responses: seq<Response<R>>, id: AttemptId, reply: R)
    ensures multiset(Replies(responses, id))[reply] == multiset(responses)[Response(id, reply)]
  {
    if responses != [] {
      var rest, last := responses[..|responses| - 1], responses[|responses| - 1];
      assert responses == rest + [last];
      RepliesCount(rest, id, reply);
    }
  }

  /** Any permutation of the responses gives every item the same verdict and the batch the same fate. */
  lemma PermutationInvariant<R(!new), C>(
    a: seq<Response<R>>, b: seq<Response<R>>, items: seq<AttemptId>, id: AttemptId, classify: R -> C, retry: C)
    requires multiset(a) == multiset(b)
    ensures Verdict(a, id, classify, retry) == Verdict(b, id, classify, retry)
    ensures AllKnown(items, a) <==> AllKnown(items, b)
  {
    var ra, rb := Replies(a, id), Replies(b, id);
    assert multiset(ra) == multiset(rb) by {
      forall reply ensures multiset(ra)[reply] == multiset(rb)[reply] {
        RepliesCount(a, id, reply);
        RepliesCount(b, id, reply);
      }
    }
    assert |ra| == |multiset(ra)| == |rb|;
    if |ra| == 1 {
      assert ra[0] in multiset(ra);
      assert ra[0] in rb;
    }
    if AllKnown(items, a) { KnownBy(items, a, b); }
    if AllKnown(items, b) { KnownBy(items, b, a); }
  }

  lemma KnownBy<R>(items: seq<AttemptId>, a: seq<Response<R>>, b: seq<Response<R>>)
    requires multiset(a) == multiset(b) && AllKnown(items, a)
    ensures AllKnown(items, b)
  {
    forall i | 0 <= i < |b| ensures b[i].id in items {
      assert b[i] in multiset(b);
      assert b[i] in a;
    }
  }

  /** Responses that name other items leave an item's verdict alone. */
  lemma {:induction false} OthersDoNotMatter<R, C>(
    a: seq<Response<R>>, b: seq<Response<R>>, id: AttemptId, classify: R -> C, retry: C)
    requires forall i :: 0 <= i < |b| ==> b[i].id != id
    ensures Verdict(a + b, id, classify, retry) == Verdict(a, id, classify, retry)
    decreases |b|
  {
    if b == [] {
      assert a + b == a;
    } else {
      var n := |b| - 1;
      assert (a + b)[..|a + b| - 1] == a + b[..n] && (a + b)[|a + b| - 1] == b[n];
      OthersDoNotMatter(a, b[..n], id, classify, retry);
    }
  }
}
