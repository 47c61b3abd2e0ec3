/**
 The budgeted route repair planner: which inspections a repair pass makes, in
 which order, and what an item and byte budget lets it report.
 */
module Repair {
  import opened Wrappers
  import opened Keys
  import opened Store

  datatype RepairEntry = RepairEntry(
    authoritative: Key, routes: seq<Key>, requiredRoutes: seq<Key>, unknownVersion: bool)

  datatype Reason = DanglingIndex | MissingIndex | UnknownVersion

  datatype RepairAction = RepairAction(key: Key, reason: Reason)

  datatype Inspection = Inspection(action: RepairAction, actionable: bool)

  datatype Budget = Budget(maxItems: Positive, maxBytes: Positive)

  datatype Plan = Plan(actions: seq<RepairAction>, inspected: nat, bytes: nat, truncated: bool)

  const EMPTY_PLAN := Plan([], 0, 0, false)

  /** One inspection against the budget; false stops the pass. */
  function InspectIf(plan: Plan, i: Inspection, budget: Budget): (Plan, bool) {
    var cost := |i.action.key.bytes|;
    if plan.inspected >= budget.maxItems || plan.bytes + cost > budget.maxBytes then
      (plan.(truncated := true), false)
    else
      (Plan(if i.actionable then plan.actions + [i.action] else plan.actions,
            plan.inspected + 1, plan.bytes + cost, plan.truncated), true)
  }

  // ----- The unlimited inspection order

  function RouteInspections(entries: Entries, ks: seq<Key>, reason: Reason, whenPresent: bool): (r: seq<Inspection>)
    ensures |r| == |ks|
    ensures forall i :: 0 <= i < |ks| ==>
              r[i] == Inspection(RepairAction(ks[i], reason), (ks[i] in entries) == whenPresent)
  {
    if ks == [] then [] else
      RouteInspections(entries, ks[..|ks| - 1], reason, whenPresent)
      + [Inspection(RepairAction(ks[|ks| - 1], reason), (ks[|ks| - 1] in entries) == whenPresent)]
  }

  function EntryInspections(entries: Entries, e: RepairEntry): seq<Inspection> {
    if e.unknownVersion then [Inspection(RepairAction(e.authoritative, UnknownVersion), true)]
    else if e.authoritative in entries then RouteInspections(entries, e.requiredRoutes, MissingIndex, false)
    else RouteInspections(entries, e.routes, DanglingIndex, true)
  }

  function Inspections(entries: Entries, es: seq<RepairEntry>): seq<Inspection> {
    if es == [] then [] else Inspections(entries, es[..|es| - 1]) + EntryInspections(entries, es[|es| - 1])
  }

  function Actions(xs: seq<Inspection>): seq<RepairAction> {
    if xs == [] then [] else
      Actions(xs[..|xs| - 1]) + (if xs[|xs| - 1].actionable then [xs[|xs| - 1].action] else [])
  }

  function Cost(xs: seq<Inspection>): nat {
    if xs == [] then 0 else Cost(xs[..|xs| - 1]) + |xs[|xs| - 1].action.key.bytes|
  }

  predicate Affordable(xs: seq<Inspection>, budget: Budget) {
    |xs| <= budget.maxItems && Cost(xs) <= budget.maxBytes
  }

  /** The length of the longest affordable prefix, growing from `n`. */
  function Reach(xs: seq<Inspection>, budget: Budget, n: nat): (r: nat)
    requires n <= |xs|
    ensures n <= r <= |xs|
    decreases |xs| - n
  {
    if n < |xs| && Affordable(xs[..n + 1], budget) then Reach(xs, budget, n + 1) else n
  }

  /** The plan the budget allows: a prefix of the inspections, and whether one was left out. */
  function Within(xs: seq<Inspection>, budget: Budget): Plan {
    var n := Reach(xs, budget, 0);
    Plan(Actions(xs[..n]), n, Cost(xs[..n]), n < |xs|)
  }

  // ----- Lemmas

  lemma {:induction false} CostMonotone(xs: seq<Inspection>, m: nat, n: nat)
    requires m <= n <= |xs|
    ensures Cost(xs[..m]) <= Cost(xs[..n])
    decreases n
  {
    if m < n {
      assert xs[..n][..n - 1] == xs[..n - 1];
      CostMonotone(xs, m, n - 1);
    }
  }

  lemma {:induction false} ReachExact(xs: seq<Inspection>, budget: Budget, n: nat)
    requires n <= |xs| && Affordable(xs[..n], budget)
    ensures Affordable(xs[..Reach(xs, budget, n)], budget)
    ensures forall k :: Reach(xs, budget, n) < k <= |xs| ==> !Affordable(xs[..k], budget)
    decreases |xs| - n
  {
    if n < |xs| && Affordable(xs[..n + 1], budget) {
      ReachExact(xs, budget, n + 1);
    } else {
      forall k | n < k <= |xs| ensures !Affordable(xs[..k], budget) { CostMonotone(xs, n + 1, k); }
    }
  }

  /**
   Budgeted prefix: the plan stays within both budgets, reports the actionable
   inspections of a prefix, and no longer prefix is affordable; it is marked
   truncated exactly when an inspection was left out.
   */
  lemma PlanIsLongestPrefix(xs: seq<Inspection>, budget: Budget)
    ensures
      var p := Within(xs, budget);
      && p.inspected <= budget.maxItems && p.bytes <= budget.maxBytes
      && p.inspected <= |xs| && p.actions == Actions(xs[..p.inspected]) && p.bytes == Cost(xs[..p.inspected])
      && (forall k :: p.inspected < k <= |xs| ==> !Affordable(xs[..k], budget))
      && (p.truncated <==> !Affordable(xs, budget))
  {
    assert xs[..0] == [];
    ReachExact(xs, budget, 0);
    assert xs[..|xs|] == xs;
  }

  lemma {:induction false} ActionsPrefix(xs: seq<Inspection>, m: nat, n: nat)
    requires m <= n <= |xs|
    ensures Actions(xs[..m]) <= Actions(xs[..n])
    decreases n
  {
    if m < n {
      assert xs[..n][..n - 1] == xs[..n - 1];
      ActionsPrefix(xs, m, n - 1);
    }
  }

  /** A larger budget only extends the plan. */
  lemma LargerBudgetExtends(xs: seq<Inspection>, small: Budget, large: Budget)
    requires small.maxItems <= large.maxItems && small.maxBytes <= large.maxBytes
    ensures Within(xs, small).actions <= Within(xs, large).actions
    ensures Within(xs, small).inspected <= Within(xs, large).inspected
    ensures Within(xs, large).truncated ==> Within(xs, small).truncated
  {
    PlanIsLongestPrefix(xs, small);
    PlanIsLongestPrefix(xs, large);
    var m, n := Within(xs, small).inspected, Within(xs, large).inspected;
    assert Affordable(xs[..m], small) && Affordable(xs[..m], large);
    assert m <= n;
    ActionsPrefix(xs, m, n);
  }

  // ----- Inspecting one more

  lemma ReachUnique(xs: seq<Inspection>, budget: Budget, n: nat)
    requires n <= |xs| && Affordable(xs[..n], budget)
    requires n < |xs| ==> !Affordable(xs[..n + 1], budget)
    ensures Reach(xs, budget, 0) == n
  {
    assert xs[..0] == [];
    ReachExact(xs, budget, 0);
    var r := Reach(xs, budget, 0);
    assert r >= n;
    if n < r { CostMonotone(xs, n + 1, r); }
  }

  /** Inspecting one more is what the budget allows of the longer sequence. */
  lemma WithinSnoc(xs: seq<Inspection>, i: Inspection, budget: Budget)
    requires !Within(xs, budget).truncated
    ensures
      var (p, go) := InspectIf(Within(xs, budget), i, budget);
      p == Within(xs + [i], budget) && go == !p.truncated
  {
    PlanIsLongestPrefix(xs, budget);
    assert xs[..|xs|] == xs;
    var ys := xs + [i];
    assert ys[..|xs|] == xs && ys[..|ys|] == ys && ys[..|ys| - 1] == xs;
    ReachUnique(ys, budget, if Affordable(ys, budget) then |ys| else |xs|);
  }

  /** Once truncated, a pass is not changed by what follows. */
  lemma WithinTruncated(xs: seq<Inspection>, ys: seq<Inspection>, budget: Budget)
    requires Within(xs, budget).truncated
    ensures Within(xs + ys, budget) == Within(xs, budget)
  {
    PlanIsLongestPrefix(xs, budget);
    var n := Within(xs, budget).inspected;
    assert (xs + ys)[..n] == xs[..n] && (xs + ys)[..n + 1] == xs[..n + 1];
    ReachUnique(xs + ys, budget, n);
  }

  lemma {:induction false} TruncatedPass(entries: Entries, es: seq<RepairEntry>, n: nat, budget: Budget)
    requires n <= |es| && Within(Inspections(entries, es[..n]), budget).truncated
    ensures Within(Inspections(entries, es), budget) == Within(Inspections(entries, es[..n]), budget)
    decreases |es| - n
  {
    if n == |es| {
      assert es[..n] == es;
    } else {
      assert es[..n + 1][..n] == es[..n];
      WithinTruncated(Inspections(entries, es[..n]), EntryInspections(entries, es[n]), budget);
      TruncatedPass(entries, es, n + 1, budget);
    }
  }

  lemma InspectionsSnoc(entries: Entries, es: seq<RepairEntry>, n: nat)
    requires n < |es|
    ensures Inspections(entries, es[..n + 1]) == Inspections(entries, es[..n]) + EntryInspections(entries, es[n])
  {
    assert es[..n + 1][..n] == es[..n];
  }

  /** What a route inventory needs, stated without any inspection order. */
  predicate Needs(entries: Entries, e: RepairEntry, a: RepairAction) {
    match a.reason
    case UnknownVersion => e.unknownVersion && a.key == e.authoritative
    case MissingIndex =>
      !e.unknownVersion && e.authoritative in entries && a.key in e.requiredRoutes && a.key !in entries
    case DanglingIndex =>
      !e.unknownVersion && e.authoritative !in entries && a.key in e.routes && a.key in entries
  }

  lemma {:induction false} ActionsMembers(xs: seq<Inspection>, a: RepairAction)
    ensures a in Actions(xs) <==> Inspection(a, true) in xs
    decreases |xs|
  {
    if xs != [] {
      ActionsMembers(xs[..|xs| - 1], a);
      assert xs == xs[..|xs| - 1] + [xs[|xs| - 1]];
    }
  }

  lemma EntryInspectionsMembers(entries: Entries, e: RepairEntry, a: RepairAction)
    ensures Inspection(a, true) in EntryInspections(entries, e) <==> Needs(entries, e, a)
  {
  }

  lemma {:induction false} InspectionsMembers(entries: Entries, es: seq<RepairEntry>, a: RepairAction)
    ensures Inspection(a, true) in Inspections(entries, es) <==> exists i :: 0 <= i < |es| && Needs(entries, es[i], a)
    decreases |es|
  {
    if es != [] {
      var init, last := es[..|es| - 1], es[|es| - 1];
      InspectionsMembers(entries, init, a);
      EntryInspectionsMembers(entries, last, a);
      if i :| 0 <= i < |es| && Needs(entries, es[i], a) {
        if i < |es| - 1 { assert init[i] == es[i]; }
      }
      if i :| 0 <= i < |init| && Needs(entries, init[i], a) { assert es[i] == init[i]; }
    }
  }

  /**
   Every reported action is needed; when the plan is not truncated, every
   needed action is reported.
   */
  lemma PlanSoundAndComplete(entries: Entries, es: seq<RepairEntry>, budget: Budget, a: RepairAction)
    ensures
      var p := Within(Inspections(entries, es), budget);
      var needed := exists i :: 0 <= i < |es| && Needs(entries, es[i], a);
      && (a in p.actions ==> needed)
      && (!p.truncated ==> (a in p.actions <==> needed))
  {
    var xs := Inspections(entries, es);
    var p := Within(xs, budget);
    PlanIsLongestPrefix(xs, budget);
    ActionsMembers(xs[..p.inspected], a);
    InspectionsMembers(entries, es, a);
    if !p.truncated { assert xs[..p.inspected] == xs; }
  }
}
