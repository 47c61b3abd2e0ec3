/**
 The reference store as an object: its fields change in place, and every method
 is tied to the value-level function the run theorems are about.
 */
module StoreModel {
  import opened Wrappers
  import opened Keys
  import opened Store
  import Paging
  import opened Repair

  class StoreModel {
    const caps: Capabilities
    var entries: Entries
    var commits: map<OperationId, Recorded>

    function Contents(): State
      reads this
    {
      State(entries, commits)
    }

    constructor (caps: Capabilities)
      ensures this.caps == caps && Contents() == State(map[], map[])
    {
      this.caps := caps;
      entries := map[];
      commits := map[];
    }

    method Put(key: Key, value: Bytes) returns (r: Result<(), Error>)
      modifies this
      ensures (Contents(), r) == PutStep(caps, old(Contents()), key, value)
      ensures WithinLimits(caps, old(entries)) ==> WithinLimits(caps, entries)
    {
      if |key.bytes| > caps.maxKeyBytes {
        return Err(CapabilityExceeded("key bytes"));
      }
      if |value| > caps.maxValueBytes {
        return Err(CapabilityExceeded("value bytes"));
      }
      entries := entries[key := value];
      r := Ok(());
    }

    method Commit(t: Transaction) returns (r: Result<Outcome, Error>)
      modifies this
      ensures (Contents(), r) == CommitStep(caps, old(Contents()), t)
      ensures WithinLimits(caps, old(entries)) ==> WithinLimits(caps, entries)
    {
      ghost var before := Contents();
      if WithinLimits(caps, entries) { CommitKeepsLimits(caps, before, t); }
      var violation := Violation(caps, t);
      if violation.Some? {
        return Err(violation.value);
      }
      if t.id in commits {
        var recorded := commits[t.id];
        return if recorded.transaction == t then Ok(recorded.outcome) else Err(OperationReused);
      }
      if !ChecksMatch(entries, t.checks) {
        commits := commits[t.id := Recorded(t, Conflict)];
        return Ok(Conflict);
      }
      var next := entries;
      for i := 0 to |t.mutations|
        invariant next == Apply(entries, t.mutations[..i]) && Contents() == before
      {
        assert t.mutations[..i + 1][..i] == t.mutations[..i];
        match t.mutations[i] {
          case Put(key, value) => next := next[key := value];
          case Delete(key) => next := next - {key};
        }
      }
      assert t.mutations[..|t.mutations|] == t.mutations;
      entries := next;
      commits := commits[t.id := Recorded(t, Committed)];
      r := Ok(Committed);
    }

    method ReadRange(request: Paging.Request) returns (r: Result<Paging.Page, Error>)
      ensures r == Paging.ReadRange(caps, entries, request)
    {
      var violation := Paging.RangeViolation(caps, request);
      if violation.Some? {
        return Err(violation.value);
      }
      var candidates := CollectCandidates(request);
      var filled := FillPage(candidates, request.itemLimit, request.byteLimit);
      if filled.Err? {
        return Err(filled.error);
      }
      var page := filled.value;
      var continuation := if |page| < |candidates| && page != [] then Some(page[|page| - 1].key) else None;
      r := Ok(Paging.Page(page, continuation));
    }

    method CollectCandidates(request: Paging.Request) returns (candidates: seq<Key>)
      ensures candidates == Paging.Candidates(entries, request)
    {
      var wanted := Paging.Wanted(entries, request);
      candidates := Ordered(Forward, wanted);
      if request.direction == Reverse {
        candidates := Reversed(candidates);
        ReversedWalk(wanted);
      }
      OrderedIsWalk(request.direction, wanted);
    }

    /** The first `i` candidates fit, with `total` bytes used; the rest decide how many more do. */
    ghost predicate Filling(candidates: seq<Key>, itemLimit: nat, byteLimit: nat, i: nat, total: nat)
      reads this
      requires forall j :: 0 <= j < |candidates| ==> candidates[j] in entries
    {
      && i <= |candidates| && i <= itemLimit && total <= byteLimit
      && (i > 0 ==> Paging.Size(entries, candidates[0]) <= byteLimit)
      && Paging.Fit(entries, candidates, itemLimit, byteLimit)
         == i + Paging.Fit(entries, candidates[i..], itemLimit - i, byteLimit - total)
    }

    lemma FillingStep(candidates: seq<Key>, itemLimit: nat, byteLimit: nat, i: nat, total: nat)
      requires forall j :: 0 <= j < |candidates| ==> candidates[j] in entries
      requires Filling(candidates, itemLimit, byteLimit, i, total) && i < |candidates| && i < itemLimit
      requires total + Paging.Size(entries, candidates[i]) <= byteLimit
      ensures Filling(candidates, itemLimit, byteLimit, i + 1, total + Paging.Size(entries, candidates[i]))
    {
    }

    method FillPage(candidates: seq<Key>, itemLimit: Positive, byteLimit: Positive)
        returns (r: Result<seq<Paging.Entry>, Error>)
      requires forall i :: 0 <= i < |candidates| ==> candidates[i] in entries
      ensures r == if candidates != [] && Paging.Size(entries, candidates[0]) > byteLimit then Err(RangeItemTooLarge)
                   else
                     var n := Paging.Fit(entries, candidates, itemLimit, byteLimit);
                     Ok(Paging.WithValues(entries, candidates[..n]))
    {
      var page: seq<Paging.Entry>, total: nat, i: nat := [], 0, 0;
      while i < |candidates| && i < itemLimit
        invariant Filling(candidates, itemLimit, byteLimit, i, total)
        invariant page == Paging.WithValues(entries, candidates[..i])
      {
        var key := candidates[i];
        var entryBytes: nat := |key.bytes| + |entries[key]|;
        if entryBytes > byteLimit && page == [] {
          return Err(RangeItemTooLarge);
        }
        if total + entryBytes > byteLimit {
          break;
        }
        FillingStep(candidates, itemLimit, byteLimit, i, total);
        assert candidates[..i + 1][..i] == candidates[..i];
        total := total + entryBytes;
        page := page + [Paging.Entry(key, entries[key])];
        i := i + 1;
      }
      r := Ok(page);
    }

    method RepairPlan(es: seq<RepairEntry>, budget: Budget) returns (plan: Plan)
      ensures plan == Within(Inspections(entries, es), budget)
    {
      plan := EMPTY_PLAN;
      var i := 0;
      while i < |es|
        invariant i <= |es|
        invariant plan == Within(Inspections(entries, es[..i]), budget) && !plan.truncated
      {
        var go;
        plan, go := InspectEntry(es[i], budget, plan, Inspections(entries, es[..i]));
        InspectionsSnoc(entries, es, i);
        i := i + 1;
        if !go {
          TruncatedPass(entries, es, i, budget);
          return;
        }
      }
      assert es[..|es|] == es;
    }

    method InspectEntry(e: RepairEntry, budget: Budget, plan: Plan, ghost done: seq<Inspection>)
        returns (next: Plan, go: bool)
      requires plan == Within(done, budget) && !plan.truncated
      ensures next == Within(done + EntryInspections(entries, e), budget) && go == !next.truncated
    {
      if e.unknownVersion {
        var i := Inspection(RepairAction(e.authoritative, UnknownVersion), true);
        WithinSnoc(done, i, budget);
        next, go := InspectIf(plan, i, budget).0, InspectIf(plan, i, budget).1;
        return;
      }
      var present := e.authoritative in entries;
      var routes, reason, whenPresent :=
        if present then e.requiredRoutes else e.routes,
        if present then MissingIndex else DanglingIndex,
        !present;
      next, go := InspectRoutes(routes, reason, whenPresent, budget, plan, done);
    }

    method InspectRoutes(routes: seq<Key>, reason: Reason, whenPresent: bool, budget: Budget, plan: Plan,
                         ghost done: seq<Inspection>)
        returns (next: Plan, go: bool)
      requires plan == Within(done, budget) && !plan.truncated
      ensures next == Within(done + RouteInspections(entries, routes, reason, whenPresent), budget)
      ensures go == !next.truncated
    {
      next, go := plan, true;
      ghost var all := RouteInspections(entries, routes, reason, whenPresent);
      assert done + [] == done;
      var i := 0;
      while i < |routes|
        invariant i <= |routes|
        invariant next == Within(done + all[..i], budget) && go && !next.truncated
      {
        var inspection := Inspection(RepairAction(routes[i], reason), (routes[i] in entries) == whenPresent);
        WithinSnoc(done + all[..i], inspection, budget);
        assert done + all[..i] + [inspection] == done + all[..i + 1];
        next, go := InspectIf(next, inspection, budget).0, InspectIf(next, inspection, budget).1;
        if !go {
          WithinTruncated(done + all[..i + 1], all[i + 1..], budget);
          assert done + all[..i + 1] + all[i + 1..] == done + all;
          return;
        }
        i := i + 1;
      }
      assert all[..|all|] == all;
    }
  }
}
