/**
 Immutable object publication: HEAD, conditional PUT, HEAD again, by any number
 of concurrent publishers with lost, conflicting and repeated requests.

 The server follows sections 13.1.2 and 15.5.13 of RFC 9110: a PUT carrying
 `If-None-Match: *` creates the object when there is none and is answered 412
 without effect when there is one.
 */
module Publication {
  import opened Wrappers

  type Publisher = nat

  /** What a HEAD response lets a publisher compare: source identity and length. */
  datatype Object = Object(identity: string, length: nat)

  datatype PublicationError = RequestFailed | IdentityMismatch | Conflict

  datatype Status = Success | PreconditionFailed | ConflictStatus | OtherFailure

  /** Where one `publish` call stands; `seen` is what its latest HEAD reported. */
  datatype Phase =
    | FirstHead
    | FirstSeen(seen: Option<Object>)
    | Putting
    | SecondHead
    | SecondSeen(seen: Option<Object>)
    | Returned(result: Result<(), PublicationError>)

  /** `answers` holds the statuses the server has produced for each publisher's PUT. */
  datatype World = World(
    stored: Option<Object>, creations: nat,
    phases: map<Publisher, Phase>, sent: set<Publisher>, answers: map<Publisher, set<Status>>)

  datatype Action =
    | ServeHead(p: Publisher)
    | LoseRequest(p: Publisher)
    | Compare(p: Publisher)
    | DeliverPut(p: Publisher)
    | AnswerPut(p: Publisher, status: Status)
    | Delete

  function PhaseOf(w: World, p: Publisher): Phase {
    if p in w.phases then w.phases[p] else FirstHead
  }

  function AnswersOf(w: World, p: Publisher): set<Status> {
    if p in w.answers then w.answers[p] else {}
  }

  /** 412 and 2xx come only from a delivery; 409 and failures can be answered at any time. */
  predicate Enabled(w: World, a: Action) {
    match a
    case ServeHead(p) => PhaseOf(w, p).FirstHead? || PhaseOf(w, p).SecondHead?
    case LoseRequest(p) => PhaseOf(w, p).FirstHead? || PhaseOf(w, p).SecondHead? || PhaseOf(w, p).Putting?
    case Compare(p) => PhaseOf(w, p).FirstSeen? || PhaseOf(w, p).SecondSeen?
    case DeliverPut(p) => p in w.sent
    case AnswerPut(p, s) => PhaseOf(w, p).Putting? && (s in AnswersOf(w, p) || s.ConflictStatus? || s.OtherFailure?)
    case Delete => true
  }

  /** The comparison of `has_matching_object`: 404, a mismatch or a match. */
  function Matching(mine: Object, seen: Option<Object>): Result<bool, PublicationError> {
    match seen
    case None => Ok(false)
    case Some(o) =>
      if o.length != mine.length || o.identity != mine.identity then Err(IdentityMismatch) else Ok(true)
  }

  function AfterCompare(mine: Object, before: Phase): Phase
    requires before.FirstSeen? || before.SecondSeen?
  {
    match Matching(mine, before.seen)
    case Err(e) => Returned(Err(e))
    case Ok(true) => Returned(Ok(()))
    case Ok(false) => if before.FirstSeen? then Putting else Returned(Err(Conflict))
  }

  function AfterAnswer(s: Status): Phase {
    match s
    case Success => Returned(Ok(()))
    case PreconditionFailed => SecondHead
    case ConflictStatus => SecondHead
    case OtherFailure => Returned(Err(RequestFailed))
  }

  function Act(objects: Publisher -> Object, w: World, a: Action): World
    requires Enabled(w, a)
  {
    match a
    case ServeHead(p) =>
      w.(phases := w.phases[p := if PhaseOf(w, p).FirstHead? then FirstSeen(w.stored) else SecondSeen(w.stored)])
    case LoseRequest(p) => w.(phases := w.phases[p := Returned(Err(RequestFailed))])
    case Compare(p) =>
      var next := AfterCompare(objects(p), PhaseOf(w, p));
      w.(phases := w.phases[p := next], sent := if next.Putting? then w.sent + {p} else w.sent)
    case DeliverPut(p) =>
      if w.stored.None? then
        w.(stored := Some(objects(p)), creations := w.creations + 1,
           answers := w.answers[p := AnswersOf(w, p) + {Success}])
      else
        w.(answers := w.answers[p := AnswersOf(w, p) + {PreconditionFailed}])
    case AnswerPut(p, s) => w.(phases := w.phases[p := AfterAnswer(s)])
    case Delete => w.(stored := None)
  }

  predicate Init(w: World) {
    w.creations == (if w.stored.Some? then 1 else 0) && w.phases == map[] && w.sent == {} && w.answers == map[]
  }

  ghost predicate Behavior(objects: Publisher -> Object, ws: seq<World>, acts: seq<Action>) {
    && |ws| == |acts| + 1 && Init(ws[0])
    && forall i :: 0 <= i < |acts| ==> Enabled(ws[i], acts[i]) && ws[i + 1] == Act(objects, ws[i], acts[i])
  }

  /** The object is not deleted before step `n`. */
  ghost predicate NoDeletes(acts: seq<Action>, n: nat) {
    forall i :: 0 <= i < n && i < |acts| ==> !acts[i].Delete?
  }

  /** The server's object is created once; whatever a publisher learned of it is still true. */
  ghost predicate Truthful(objects: Publisher -> Object, w: World) {
    && w.creations == (if w.stored.Some? then 1 else 0)
    && (forall p :: Success in AnswersOf(w, p) ==> w.stored == Some(objects(p)))
    && (forall p :: PreconditionFailed in AnswersOf(w, p) ==> w.stored.Some?)
    && (forall p :: (PhaseOf(w, p).FirstSeen? || PhaseOf(w, p).SecondSeen?) && PhaseOf(w, p).seen.Some?
          ==> w.stored == PhaseOf(w, p).seen)
    && (forall p :: PhaseOf(w, p) == Returned(Ok(())) ==> w.stored == Some(objects(p)))
    && (forall p :: PhaseOf(w, p) == Returned(Err(IdentityMismatch)) ==> w.stored.Some? && w.stored != Some(objects(p)))
  }

  lemma StepKeepsTruthful(objects: Publisher -> Object, w: World, a: Action)
    requires Truthful(objects, w) && Enabled(w, a) && !a.Delete?
    ensures Truthful(objects, Act(objects, w, a))
    ensures w.stored.Some? ==> Act(objects, w, a).stored == w.stored
  {
    var w' := Act(objects, w, a);
    forall p | p != a.p ensures PhaseOf(w', p) == PhaseOf(w, p) && AnswersOf(w', p) == AnswersOf(w, p) {}
    assert a.DeliverPut? ==> PhaseOf(w', a.p) == PhaseOf(w, a.p);
    assert !a.DeliverPut? ==> AnswersOf(w', a.p) == AnswersOf(w, a.p);
  }

  /**
   In every reachable state without deletes the object has been created at most
   once; a publisher that returned Ok finds its own identity and length stored;
   one that returned a mismatch finds another object stored.
   */
  lemma {:induction false} PublishedTruthfully(objects: Publisher -> Object, ws: seq<World>, acts: seq<Action>, i: nat)
    requires Behavior(objects, ws, acts) && NoDeletes(acts, i) && i < |ws|
    ensures Truthful(objects, ws[i])
  {
    if i > 0 {
      PublishedTruthfully(objects, ws, acts, i - 1);
      StepKeepsTruthful(objects, ws[i - 1], acts[i - 1]);
    }
  }

  /** Once stored, the object never changes. */
  lemma {:induction false} Immutable(objects: Publisher -> Object, ws: seq<World>, acts: seq<Action>, i: nat, j: nat)
    requires Behavior(objects, ws, acts) && NoDeletes(acts, j) && i <= j < |ws|
    requires ws[i].stored.Some?
    ensures ws[j].stored == ws[i].stored
    decreases j
  {
    if i < j {
      Immutable(objects, ws, acts, i, j - 1);
      PublishedTruthfully(objects, ws, acts, j - 1);
      StepKeepsTruthful(objects, ws[j - 1], acts[j - 1]);
    }
  }

  /** Two publishers that differ in identity or length never both succeed, at any two moments. */
  lemma OneWinner(
    objects: Publisher -> Object, ws: seq<World>, acts: seq<Action>, i: nat, j: nat, p: Publisher, q: Publisher)
    requires Behavior(objects, ws, acts) && NoDeletes(acts, j) && i <= j < |ws|
    requires PhaseOf(ws[i], p) == Returned(Ok(())) && PhaseOf(ws[j], q) == Returned(Ok(()))
    ensures objects(p) == objects(q)
  {
    PublishedTruthfully(objects, ws, acts, i);
    PublishedTruthfully(objects, ws, acts, j);
    Immutable(objects, ws, acts, i, j);
  }

  /** A mismatch is final: from then on nobody publishing that object can succeed. */
  lemma MismatchIsFinal(
    objects: Publisher -> Object, ws: seq<World>, acts: seq<Action>, i: nat, j: nat, p: Publisher, q: Publisher)
    requires Behavior(objects, ws, acts) && NoDeletes(acts, j) && i <= j < |ws|
    requires PhaseOf(ws[i], p) == Returned(Err(IdentityMismatch)) && objects(q) == objects(p)
    ensures PhaseOf(ws[j], q) != Returned(Ok(()))
  {
    PublishedTruthfully(objects, ws, acts, i);
    PublishedTruthfully(objects, ws, acts, j);
    Immutable(objects, ws, acts, i, j);
  }

  /**
   Reconciliation: a call that begins once its object is stored never sends a
   PUT and ends with Ok, unless its HEAD request is lost.
   */
  lemma {:induction false} Reconciles(
    objects: Publisher -> Object, ws: seq<World>, acts: seq<Action>, i: nat, j: nat, p: Publisher)
    requires Behavior(objects, ws, acts) && NoDeletes(acts, j) && i <= j < |ws|
    requires ws[i].stored == Some(objects(p)) && PhaseOf(ws[i], p).FirstHead? && p !in ws[i].sent
    ensures p !in ws[j].sent
    ensures PhaseOf(ws[j], p) in
              {FirstHead, FirstSeen(Some(objects(p))), Returned(Ok(())), Returned(Err(RequestFailed))}
    decreases j
  {
    if i < j {
      Reconciles(objects, ws, acts, i, j - 1, p);
      Immutable(objects, ws, acts, i, j - 1);
      var w, a := ws[j - 1], acts[j - 1];
      assert a.p != p ==> PhaseOf(Act(objects, w, a), p) == PhaseOf(w, p);
    }
  }

  /** Where a call can be once its PUT was refused with an object stored, its requests not being lost. */
  predicate AfterRefusal(mine: Object, stored: Option<Object>, p: Phase) {
    || p == SecondHead || p == SecondSeen(stored)
    || p == Returned(if stored == Some(mine) then Ok(()) else Err(IdentityMismatch))
  }

  predicate Refusal(s: Status) {
    s.PreconditionFailed? || s.ConflictStatus?
  }

  lemma StepAfterRefusal(objects: Publisher -> Object, w: World, a: Action, p: Publisher)
    requires Truthful(objects, w) && Enabled(w, a) && !a.Delete? && a != LoseRequest(p)
    requires w.stored.Some? && AfterRefusal(objects(p), w.stored, PhaseOf(w, p))
    ensures AfterRefusal(objects(p), w.stored, PhaseOf(Act(objects, w, a), p))
  {
    if a.p != p { assert PhaseOf(Act(objects, w, a), p) == PhaseOf(w, p); }
  }

  /** A PUT answered 412 means that something is stored. */
  lemma RefusedForCause(objects: Publisher -> Object, ws: seq<World>, acts: seq<Action>, i: nat, p: Publisher)
    requires Behavior(objects, ws, acts) && NoDeletes(acts, i) && i < |acts|
    requires acts[i] == AnswerPut(p, PreconditionFailed)
    ensures ws[i].stored.Some?
  {
    PublishedTruthfully(objects, ws, acts, i);
  }

  /**
   A refused PUT is looked into: in every run without deletes, a call answered
   412, or 409 with an object stored, asks again, and unless that request is
   lost it returns Ok if the object is its own and a mismatch otherwise.
   */
  lemma {:induction false} RefusalIsResolved(
    objects: Publisher -> Object, ws: seq<World>, acts: seq<Action>, i: nat, j: nat, p: Publisher)
    requires Behavior(objects, ws, acts) && NoDeletes(acts, j) && i < j < |ws|
    requires acts[i].AnswerPut? && acts[i].p == p && Refusal(acts[i].status) && ws[i].stored.Some?
    requires forall k :: i < k < j ==> acts[k] != LoseRequest(p)
    ensures AfterRefusal(objects(p), ws[i].stored, PhaseOf(ws[j], p))
    decreases j
  {
    if j > i + 1 {
      RefusalIsResolved(objects, ws, acts, i, j - 1, p);
      PublishedTruthfully(objects, ws, acts, j - 1);
      Immutable(objects, ws, acts, i, j - 1);
      StepAfterRefusal(objects, ws[j - 1], acts[j - 1], p);
    }
  }

  /** The request was lost or its answer was neither success nor refusal. */
  predicate Fails(a: Action, p: Publisher) {
    a == LoseRequest(p) || a == AnswerPut(p, OtherFailure)
  }

  /** A call ends in a failed request iff one of its requests failed; with deletes as well. */
  lemma {:induction false} FailedIff(
    objects: Publisher -> Object, ws: seq<World>, acts: seq<Action>, i: nat, p: Publisher)
    requires Behavior(objects, ws, acts) && i < |ws|
    ensures PhaseOf(ws[i], p) == Returned(Err(RequestFailed)) <==> exists k :: 0 <= k < i && Fails(acts[k], p)
  {
    if i > 0 {
      FailedIff(objects, ws, acts, i - 1, p);
      FailsStep(objects, ws[i - 1], acts[i - 1], p);
      assert Fails(acts[i - 1], p) ==> exists k :: 0 <= k < i && Fails(acts[k], p);
    }
  }

  lemma FailsStep(objects: Publisher -> Object, w: World, a: Action, p: Publisher)
    requires Enabled(w, a)
    ensures PhaseOf(Act(objects, w, a), p) == Returned(Err(RequestFailed)) <==>
              PhaseOf(w, p) == Returned(Err(RequestFailed)) || Fails(a, p)
  {
    assert (a.Delete? || a.p != p) ==> PhaseOf(Act(objects, w, a), p) == PhaseOf(w, p);
  }

  lemma {:induction false} Answered409(
    objects: Publisher -> Object, ws: seq<World>, acts: seq<Action>, i: nat, p: Publisher) returns (k: nat)
    requires Behavior(objects, ws, acts) && NoDeletes(acts, i) && i < |ws|
    requires PhaseOf(ws[i], p) in {SecondHead, SecondSeen(None), Returned(Err(Conflict))}
    requires forall j :: 0 <= j < i ==> acts[j] != AnswerPut(p, PreconditionFailed)
    ensures k < i && acts[k] == AnswerPut(p, ConflictStatus)
  {
    assert i > 0;
    var w, a := ws[i - 1], acts[i - 1];
    assert a.p != p ==> PhaseOf(ws[i], p) == PhaseOf(w, p);
    if a == AnswerPut(p, ConflictStatus) {
      k := i - 1;
    } else {
      k := Answered409(objects, ws, acts, i - 1, p);
    }
  }

  /** Only a call whose PUT was answered 409 while nothing was stored can end in a conflict. */
  lemma ConflictMeans409(
    objects: Publisher -> Object, ws: seq<World>, acts: seq<Action>, i: nat, p: Publisher) returns (k: nat)
    requires Behavior(objects, ws, acts) && NoDeletes(acts, i) && i < |ws|
    requires PhaseOf(ws[i], p) == Returned(Err(Conflict))
    ensures k < i && acts[k] == AnswerPut(p, ConflictStatus) && ws[k].stored == None
  {
    FailedIff(objects, ws, acts, i, p);
    forall j | 0 <= j < i ensures acts[j] != AnswerPut(p, PreconditionFailed) {
      if acts[j] == AnswerPut(p, PreconditionFailed) {
        RefusedForCause(objects, ws, acts, j, p);
        NotLost(acts, j, i, p);
        RefusalIsResolved(objects, ws, acts, j, i, p);
      }
    }
    k := Answered409(objects, ws, acts, i, p);
    if ws[k].stored.Some? {
      NotLost(acts, k, i, p);
      RefusalIsResolved(objects, ws, acts, k, i, p);
    }
  }

  lemma NotLost(acts: seq<Action>, j: nat, i: nat, p: Publisher)
    requires i <= |acts| && !exists k :: 0 <= k < i && Fails(acts[k], p)
    ensures forall k :: j < k < i ==> acts[k] != LoseRequest(p)
  {
    forall k | j < k < i ensures acts[k] != LoseRequest(p) { assert !Fails(acts[k], p); }
  }

  // ----- Every call ends

  /** How far a call has come. */
  function Progress(p: Phase): nat {
    match p
    case FirstHead => 0
    case FirstSeen(_) => 1
    case Putting => 2
    case SecondHead => 3
    case SecondSeen(_) => 4
    case Returned(_) => 5
  }

  /** A step of the call itself; delivering its PUT, again and again, is the network's. */
  predicate OwnStep(a: Action, p: Publisher) {
    !a.Delete? && !a.DeliverPut? && a.p == p
  }

  function OwnSteps(acts: seq<Action>, i: nat, p: Publisher): nat
    requires i <= |acts|
  {
    if i == 0 then 0 else OwnSteps(acts, i - 1, p) + if OwnStep(acts[i - 1], p) then 1 else 0
  }

  /** No call goes back: it sends at most one PUT and has returned after at most five steps of its own. */
  lemma {:induction false} CallsEnd(
    objects: Publisher -> Object, ws: seq<World>, acts: seq<Action>, i: nat, p: Publisher)
    requires Behavior(objects, ws, acts) && i < |ws|
    ensures OwnSteps(acts, i, p) <= Progress(PhaseOf(ws[i], p)) <= 5
    ensures OwnSteps(acts, i, p) == 5 ==> PhaseOf(ws[i], p).Returned?
  {
    if i > 0 {
      CallsEnd(objects, ws, acts, i - 1, p);
      var w, a := ws[i - 1], acts[i - 1];
      assert ws[i] == Act(objects, w, a);
      assert !OwnStep(a, p) ==> PhaseOf(ws[i], p) == PhaseOf(w, p);
    }
  }

  ghost predicate Leads(objects: Publisher -> Object, ws: seq<World>, acts: seq<Action>) {
    && |ws| == |acts| + 1
    && forall i :: 0 <= i < |acts| ==> Enabled(ws[i], acts[i]) && ws[i + 1] == Act(objects, ws[i], acts[i])
  }

  /** A publisher that finds nothing stored publishes alone in four steps. */
  lemma PublishesAlone(objects: Publisher -> Object, w: World, p: Publisher)
      returns (ws: seq<World>, acts: seq<Action>)
    requires w.stored == None && p !in w.phases
    ensures Leads(objects, ws, acts) && ws[0] == w && |acts| == 4
    ensures ws[4].phases == w.phases[p := Returned(Ok(()))]
  {
    acts := [ServeHead(p), Compare(p), DeliverPut(p), AnswerPut(p, Success)];
    var w1 := w.(phases := w.phases[p := FirstSeen(None)]);
    var w2 := w.(phases := w.phases[p := Putting], sent := w.sent + {p});
    var w3 := Act(objects, w2, acts[2]);
    var w4 := w3.(phases := w.phases[p := Returned(Ok(()))]);
    ws := [w, w1, w2, w3, w4];
  }

  /** Deletes must be excluded: with one between them, any two publishers both succeed. */
  lemma DeleteLetsBothSucceed(objects: Publisher -> Object, p: Publisher, q: Publisher)
      returns (ws: seq<World>, acts: seq<Action>)
    requires p != q
    ensures Behavior(objects, ws, acts)
    ensures PhaseOf(ws[|acts|], p) == Returned(Ok(())) && PhaseOf(ws[|acts|], q) == Returned(Ok(()))
  {
    var ws1, acts1 := PublishesAlone(objects, World(None, 0, map[], {}, map[]), p);
    var ws2, acts2 := PublishesAlone(objects, ws1[4].(stored := None), q);
    ws, acts := ws1 + ws2, acts1 + [Delete] + acts2;
    forall i | 0 <= i < |acts| ensures Enabled(ws[i], acts[i]) && ws[i + 1] == Act(objects, ws[i], acts[i]) {
      if i < 4 {
        assert acts[i] == acts1[i] && ws[i] == ws1[i] && ws[i + 1] == ws1[i + 1];
      } else if i > 4 {
        assert acts[i] == acts2[i - 5] && ws[i] == ws2[i - 5] && ws[i + 1] == ws2[i - 4];
      }
    }
  }
}
