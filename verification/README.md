# Protocol cores of aux-common, in Dafny

This project models the small protocol cores of the `aux-common` workspace and
proves what they promise over whole runs: the checked key/value store of the
job conformance kit and its fault-injecting wrapper, the Valkey
compare-and-swap script behind buffered writes, immutable S3 publication, the
shutdown, wake-up and lease handshakes, single-flight credential refresh, and
the accounting of partial results. `dafny verify dfyconfig.toml` checks all of
it.

How it is laid out:

- `Store`, `StoreRuns`, `LostUpdate`, `CreateOnce`, `Paging`, `Repair` give the reference
  store as functions on values and prove the properties of arbitrary runs;
  `StoreModel` is the mutable object, each of whose methods is proved equal to
  the function that specifies it; `Conformance` runs the suite's range proof
  against that object; `FaultStore` wraps it. `Keys` holds the byte order on
  keys and its enumeration, `Wrappers` the usual `Option` and `Result`,
  `Collections` distinctness and counting.
- `ValkeyScript` has the script as a function and as a method of a server
  object, and any number of clients running read, compute, commit against it.
- `Publication`, `Attempts`, `Channel`, `Credentials` with `CredentialRaces` and
  `CredentialTimes`, `QueueConsumer` and `Resident` are state machines. A world, a set of actions, one for each step
  another task can observe, and a `Behavior` predicate for all finite
  interleavings; the theorems are about every state of every behavior.
- `Mailbox` (an object and its join), `Lease` (the heartbeat loop), `Batch`
  and `PartialWrites` (classification loops and the life of a batch over all
  its attempts) are the sequential parts.

Conventions. Keys and values are byte sequences, identifiers are naturals, and
integers are unbounded. Randomness, clocks, networks and other code are
arguments or unconstrained actions, so a theorem holds for all of them. Tokio's
`Notify` is modelled with its documented semantics: at most one stored permit,
`notify_one` wakes one registered waiter or stores the permit,
`notify_waiters` stores nothing, and a notified waiter that is dropped passes
its notification on. Conditional requests follow section 13.1.2 of RFC 9110.

Some things a reader might expect of the code do not hold as it stands. Each
has a concrete run and an exact condition:

- Single flight. The refresh guard tests the strong count of its gate outside
  the table lock and removes the table entry afterwards. A caller that looks
  the gate up in between goes on with the old gate while a newcomer is given a
  new one. Three promises depend on it, each on a removal sparing different
  callers: that one guard is held at a time, on waiters and holders; that
  resolutions do not overlap, on callers that can still resolve; that no
  resolution starts with an unexpired value cached, on callers that can still
  store one. `Credentials.OneHolder`, `Credentials.NoOverlap` and
  `Credentials.NoNeedlessResolution` prove each promise for every run whose
  removals spare those callers. `CredentialRaces.RemovalLetsTwoHold`,
  `CredentialRaces.RemovalLetsTwoResolve` and
  `CredentialRaces.RemovalLetsNeedless` show that a removal that does not goes
  on, with no other removal, to break the promise.
  `CredentialRaces.OverlapFromInit` and `CredentialRaces.NeedlessFromInit` are
  such runs from the initial state.
- Five minutes before expiry. The lifetime of a cached credential is computed
  from one clock reading and started at a later one, and the margin is short by
  that delay: up to a nanosecond of it no value is served with less than five
  minutes left (`CredentialTimes.ServedInTime`), and beyond that every value
  still fresh can be (`CredentialTimes.DelayServesLate`, from the start in
  `CredentialTimes.LateFromInit`).
- Truthful settlement under faults. Repeating a commit until its outcome is
  known can end in Conflict although its mutations are stored
  (`FaultStore.HiddenCommit`); `FaultStore.TruthfulIff` gives the exact fault
  queues for which it does.
- One way per operation. A batch handed off to the queue is published whole, so
  operations recorded before go there as well
  (`PartialWrites.HandOffAfterCheckpoint`); and a batch published but not settled
  as such is kept and may still be written (`PartialWrites.WriteAfterHandOff`).
  Nothing is lost either way (`PartialWrites.NothingLost`), and each operation
  goes one way only iff nothing was recorded or published before the hand-off
  (`PartialWrites.HandOffOnceIff`) or published before the write
  (`PartialWrites.WriteOnceIff`).

Smaller ones: the suite's prefix range leaves out the keys that go on with the
byte 0xff (`Conformance.PrefixRange`); an ordinary trigger sent after a shutdown
was taken is dropped, and every other send on an open channel is delivered by
the next poll (`Channel.SendPendsIff`, `Channel.SentIsDelivered`); an operation
ID is bound by its first accepted use, not its first
use (`StoreRuns.RejectedUseDoesNotBind`, `StoreRuns.BoundIff`); of two
deadlines the shorter is kept for good unless one was anchored in the future
past the last instant (`Mailbox.ShortestIff`, `Mailbox.FutureAnchorKept`); and
the script accepts a pair whose halves carry different revisions
(`ValkeyScript.DisagreementFromInit`), after which the pair is never read or
replaced again (`ValkeyScript.DisagreementIsFinal`).

## Model

| member | source | states |
|---|---|---|
| `StoreModel.StoreModel.constructor` | crates/bg-jobs-conformance/src/model.rs:32-38 | a new store is empty and has recorded no commit |
| `StoreModel.StoreModel.Put` | crates/bg-jobs-conformance/src/model.rs:48-57 | the object's new contents and reply are those of the put the runs are built from |
| `StoreModel.StoreModel.Commit` | crates/bg-jobs-conformance/src/model.rs:99-141 | the loop over mutations leaves exactly the entries, commit table and reply of the specified commit |
| `StoreModel.StoreModel.ReadRange` | crates/bg-jobs-conformance/src/model.rs:66-97 | the page is the specified page of the wanted keys in scan order |
| `StoreModel.StoreModel.CollectCandidates` | crates/bg-jobs-conformance/src/model.rs:68-76 | walking and reversing the ordered map yields the one enumeration of the wanted keys sorted in scan direction |
| `StoreModel.StoreModel.FillPage` | crates/bg-jobs-conformance/src/model.rs:77-92 | the filling loop keeps the longest prefix within both limits, and fails iff the first entry alone is too large |
| `StoreModel.StoreModel.RepairPlan` | crates/bg-jobs-conformance/src/model.rs:146-154 | stopping at the first refused inspection yields the budgeted plan of the whole inventory |
| `StoreModel.StoreModel.InspectEntry` | crates/bg-jobs-conformance/src/model.rs:156-191 | one entry extends the plan by its own inspections, and says stop exactly when the plan is truncated |
| `StoreModel.StoreModel.InspectRoutes` | crates/bg-jobs-conformance/src/model.rs:178-190 | the same for the routes of one entry |
| `Store.ApplyFrame` | crates/bg-jobs-conformance/src/model.rs:121-132 | a key no mutation names keeps its presence and value |
| `Store.ApplyTarget` | crates/bg-jobs-conformance/src/model.rs:121-132 | with distinct targets, which construction enforces, every mutation takes effect whatever its position |
| `Store.CommitsIff` | crates/bg-jobs-conformance/src/model.rs:212-217 | a new accepted transaction commits iff every key it wants absent is missing and every value it expects is stored, and otherwise conflicts and changes no entry |
| `Store.AcceptedIff` | crates/bg-jobs/src/store/capabilities.rs:85-104 | a transaction is accepted iff its items, their bytes together, and each key and value are within the limits |
| `Store.PutIff` | crates/bg-jobs-conformance/src/model.rs:48-57 | a put succeeds iff key and value are within the limits, so stored entries stay within them |
| `Store.CommitKeepsLimits` | crates/bg-jobs/src/store/capabilities.rs:85-104 | validated commits keep every stored key and value within the declared limits |
| `StoreRuns.ExactlyOnce` | crates/bg-jobs-conformance/src/model.rs:99-141 | deleting every call that repeats a bound operation ID from any run changes neither the final state nor any other call's reply |
| `StoreRuns.Replay` | crates/bg-jobs-conformance/src/model.rs:99-141 | a later call with a bound ID answers the first outcome if identical, a Conflict included, and the reuse error otherwise, and changes nothing |
| `StoreRuns.BoundIff` | crates/bg-jobs-conformance/src/model.rs:103-141 | an ID is bound after a run iff it was before or some call of the run with it passed validation |
| `StoreRuns.RejectedUseDoesNotBind` | crates/bg-jobs-conformance/src/model.rs:103-110 | a concrete run in which the second use of an ID commits because the first was rejected |
| `StoreRuns.RecordStable` | crates/bg-jobs-conformance/src/model.rs:104-110 | a recorded commit is never overwritten by any run |
| `StoreRuns.SerialEffects` | crates/bg-jobs-conformance/src/model.rs:111-141 | the final entries of any run are the effects of its winning calls one after another |
| `StoreRuns.WinnersDistinct` | crates/bg-jobs-conformance/src/model.rs:111-141 | no operation ID wins twice in a run, nor after it was bound |
| `LostUpdate.NoLostUpdate` | crates/bg-jobs-conformance/src/model.rs:111-132 | for any interleaving, with other writers and deletes of the key, the final value is what happened to it in order: each winning update applied to the value just before it, and what others wrote |
| `LostUpdate.WinsOnWhatItRead` | crates/bg-jobs-conformance/src/model.rs:212-217 | an update wins only while exactly what its client read is stored, so never after a delete |
| `LostUpdate.SoleWriters` | crates/bg-jobs-conformance/src/model.rs:111-132 | without other writers the final value is the fold of the winners over the initial one, and a missing key stays missing with no winner |
| `LostUpdate.LogExact` | crates/bg-jobs-conformance/src/model.rs:111-141 | the winners are, without repetition, exactly the operations newly recorded as committed updates of the key |
| `LostUpdate.FoldIsPower` | crates/bg-jobs-conformance/src/model.rs:111-132 | when all clients apply one function, the value is that function applied as often as there are distinct committed operations |
| `CreateOnce.CreatedOnce` | crates/bg-jobs-conformance/src/model.rs:111-141 | over any run with replays and reused IDs at most one creation guarded by absence wins, and the key holds what it wrote |
| `Paging.PageExact` | crates/bg-jobs-conformance/src/model.rs:66-97 | a page is the longest prefix of the wanted keys within both limits, never empty while any remain, with a cursor iff some remain |
| `Paging.NextCandidates` | crates/bg-jobs-conformance/src/model.rs:219-230 | continuing from the last key of a page leaves exactly the wanted keys beyond it, in both directions |
| `Paging.RangesJoin` | crates/bg-jobs-conformance/src/model.rs:219-230 | scanning [a, b) and [b, c) is scanning [a, c) in either direction: no key is missed and none comes twice |
| `Paging.ConstructibleIff` | crates/bg-jobs/src/store/range.rs:36-63 | a request can be built iff its first key, when both bounds are named, and its cursor lie in its own range |
| `Paging.RangeAcceptedIff` | crates/bg-jobs/src/store/capabilities.rs:130-150 | a request is within capabilities iff both limits and every key it names are |
| `Paging.DrainExact` | crates/bg-jobs-conformance/src/model.rs:66-97 | following cursors on a fixed store returns exactly the wanted entries in order in at most as many pages as entries, every page within both limits, and fails iff one entry alone is too large |
| `Paging.ScanWanted` | crates/bg-jobs-conformance/src/model.rs:66-97 | with any calls between pages, every returned key is in bounds and beyond the first cursor |
| `Paging.ScanOrdered` | crates/bg-jobs-conformance/src/model.rs:66-97 | with any calls between pages, returned keys are strictly monotone in scan direction, so none comes twice |
| `Paging.ScanComplete` | crates/bg-jobs-conformance/src/model.rs:66-97 | a key present at every page read of a scan that ends is returned |
| `Paging.ScanTruthful` | crates/bg-jobs-conformance/src/model.rs:66-97 | every returned entry was stored, with that value, when one of the pages was read |
| `Repair.PlanIsLongestPrefix` | crates/bg-jobs-conformance/src/model.rs:195-209 | the plan is the actionable part of the longest affordable prefix, within both budgets, truncated iff not everything is affordable |
| `Repair.LargerBudgetExtends` | crates/bg-jobs-conformance/src/model.rs:195-209 | a larger budget only extends the actions and never becomes truncated |
| `Repair.PlanSoundAndComplete` | crates/bg-jobs-conformance/src/model.rs:156-191 | every action is a needed one, stated without any inspection order, and an untruncated plan has all of them |
| `Repair.WithinSnoc` | crates/bg-jobs-conformance/src/model.rs:195-209 | one more inspection changes the longest-prefix plan exactly as the incremental budget test does |
| `Conformance.ReferencePageValid` | crates/bg-jobs-conformance/src/suite.rs:377-398 | the validator accepts a page of the reference store iff anything was left to read |
| `Conformance.CheckDirection` | crates/bg-jobs-conformance/src/suite.rs:337-375 | the bounded continuation loop accepts the reference store iff the expectation is non-empty, equals the range in scan order and every entry fits; it reads at most one page per expected key |
| `Conformance.PrefixRequestConstructible` | crates/bg-jobs-conformance/src/suite.rs:654-670 | the suite's prefix range is a valid request for every prefix |
| `Conformance.PrefixRange` | crates/bg-jobs-conformance/src/suite.rs:654-670 | the suite's range holds exactly the keys that extend the prefix with a next byte below 0xff, and the prefix itself |
| `Conformance.AcceptedPageIff` | crates/bg-jobs-conformance/src/suite.rs:377-398 | of any store the validator accepts a page iff it is not empty, within both limits and in scan order throughout |
| `FaultStore.FaultStore.constructor` | crates/bg-jobs-conformance/src/fault_store.rs:101-106 | a new wrapper has no faults queued and no injected conflicts |
| `FaultStore.FaultStore.QueueFault` | crates/bg-jobs-conformance/src/fault_store.rs:108-125 | a queued fault goes last and nothing else changes |
| `FaultStore.FaultStore.ClearFaults` | crates/bg-jobs-conformance/src/fault_store.rs:127-131 | clearing drops the queue and keeps the injected conflicts |
| `FaultStore.FaultStore.TakeFault` | crates/bg-jobs-conformance/src/fault_store.rs:138-154 | the search loop removes the first matching fault and keeps the order of the others |
| `FaultStore.FaultStore.Commit` | crates/bg-jobs-conformance/src/fault_store.rs:238-279 | the wrapper's and the wrapped store's new contents and the answer are those of the specified faulty commit |
| `FaultStore.InnerRun` | crates/bg-jobs-conformance/src/fault_store.rs:238-279 | whatever the faults, the wrapped store just ran the commits that reached it |
| `FaultStore.AtMostOnce` | crates/bg-jobs-conformance/src/fault_store.rs:238-279 | in every run the wrapped entries are winners' effects in sequence, each operation ID at most once |
| `FaultStore.InjectedForever` | crates/bg-jobs-conformance/src/fault_store.rs:156-177 | after any later run an injected conflict still answers Conflict to its transaction and the reuse error to any other with its ID |
| `FaultStore.Transparent` | crates/bg-jobs-conformance/src/fault_store.rs:238-279 | with no commit fault queued every sequence of commits, accepted or rejected, is answered as the wrapped store alone answers it |
| `FaultStore.RejectionPasses` | crates/bg-jobs-conformance/src/fault_store.rs:238-279 | a rejection by the wrapped store reaches the caller also when the acknowledgement would be lost |
| `FaultStore.DrawnInOrder` | crates/bg-jobs-conformance/src/fault_store.rs:108-154 | over any run the faults drawn and still queued for an operation are those queued for it, in order |
| `FaultStore.Settle` | crates/bg-jobs-conformance/src/fault_store.rs:238-279 | repeating an inconclusive commit ends, within one call more than there are queued commit faults |
| `FaultStore.SettleReportsRecord` | crates/bg-jobs-conformance/src/fault_store.rs:238-279 | unless settling draws a conflict fault the final answer is the recorded outcome, wherever acknowledgements were lost |
| `FaultStore.RepeatReportsRecord` | crates/bg-jobs-conformance/src/fault_store.rs:238-279 | after any run with the transaction repeated among other calls, a conclusive answer is its recorded outcome unless a conflict fault was drawn for it |
| `FaultStore.SetbacksBounded` | crates/bg-jobs-conformance/src/fault_store.rs:238-279 | among any other calls, repeats are answered inconclusively at most once for each commit fault ever queued |
| `FaultStore.TruthfulIff` | crates/bg-jobs-conformance/src/fault_store.rs:238-279 | the final answer says Committed exactly when the mutations are stored, iff no conflict fault is drawn after the commit got through |
| `FaultStore.HiddenCommit` | crates/bg-jobs-conformance/src/fault_store.rs:238-279 | the two-fault queue after which Conflict is reported and the value is stored |
| `ValkeyScript.Server.Invoke` | crates/buffered-writes/src/constants.rs:100-133 | the script's stepwise tests and writes equal its specification, change nothing unless applied, and leave a sound pair when the proposal's revisions agree |
| `ValkeyScript.CommitAppliesIff` | crates/buffered-writes/src/constants.rs:100-133 | a commit applies iff the stored pair is exactly what the client saw, absent told from empty, and pair, policy, deadline and sizes are in order |
| `ValkeyScript.CommitAnswers` | crates/buffered-writes/src/constants.rs:100-133 | every answer to a commit by what is stored: other keys, policy, soundness, being beaten or late, and size, in that order |
| `ValkeyScript.RefusedIff` | crates/buffered-writes/src/constants.rs:100-133 | on a sound pair under the policy a fitting proposal is refused iff its client was beaten or is late, and is never told of an error |
| `ValkeyScript.LooksAnswer` | crates/buffered-writes/src/constants.rs:100-133 | read and inspect answer with what is stored iff it is sound and the policy holds, and change nothing |
| `ValkeyScript.OnlyThreeModes` | crates/buffered-writes/src/constants.rs:100-133 | any other mode is an error and changes nothing |
| `ValkeyScript.ExpiredIff` | crates/buffered-writes/src/constants.rs:100-133 | a deadline has passed in the script's milliseconds iff it has on the server's clock to the microsecond |
| `ValkeyScript.SameRevisionIff` | crates/buffered-writes/src/constants.rs:100-133 | two values carry one revision iff they agree at each of the leading positions |
| `ValkeyScript.Serializable` | crates/buffered-writes/src/valkey_buffer/transaction.rs:126-179 | in every interleaving, with lost connections and whatever is proposed, the history is the serial application of exactly the winners' updates, each call wins at most once, and success means having won |
| `ValkeyScript.NeverStopped` | crates/buffered-writes/src/valkey_buffer/transaction.rs:126-154 | while the policy holds and proposals agree and fit, a client that stayed connected is never stopped, however often it was refused |
| `ValkeyScript.ReadShowsIff` | crates/buffered-writes/src/valkey_buffer/transaction.rs:126-135 | a read shows exactly the stored pair if it is sound under the policy and ends the call otherwise |
| `ValkeyScript.SoundAlways` | crates/buffered-writes/src/constants.rs:100-133 | in every reachable state both keys or neither are present, within the size limit and of one revision, as long as proposals carry one revision |
| `ValkeyScript.DisagreementFromInit` | crates/buffered-writes/src/constants.rs:100-133 | any client that proposes a pair of two revisions to an empty server has it stored |
| `ValkeyScript.DisagreementIsFinal` | crates/buffered-writes/src/constants.rs:100-133 | in every run, once the stored pair carries two revisions, that pair, the winners and what clients have seen stay the same in every later state |
| `ValkeyScript.UndisturbedClientWins` | crates/buffered-writes/src/valkey_buffer/transaction.rs:126-179 | in every reachable state a client that reads, computes and commits undisturbed sees the stored pair and wins with exactly its proposal |
| `ValkeyScript.HistoryGrows` | crates/buffered-writes/src/valkey_buffer/transaction.rs:126-154 | a pair once stored stays in the history as it was |
| `Publication.PublishedTruthfully` | crates/bg-jobs-aws/src/s3_publication.rs:106-166 | without deletes the object is created at most once, Ok means the caller's own identity and length are stored, a mismatch means another object is |
| `Publication.Immutable` | crates/bg-jobs-aws/src/s3_publication.rs:76-136 | once stored the object never changes, however PUTs are repeated or lost |
| `Publication.OneWinner` | crates/bg-jobs-aws/src/s3_publication.rs:106-136 | publishers that differ in identity or length never both succeed |
| `Publication.MismatchIsFinal` | crates/bg-jobs-aws/src/s3_publication.rs:138-166 | after a mismatch nobody publishing that object ever succeeds |
| `Publication.Reconciles` | crates/bg-jobs-aws/src/s3_publication.rs:106-136 | a call begun once its object is stored never sends a PUT and returns Ok unless its HEAD is lost |
| `Publication.RefusalIsResolved` | crates/bg-jobs-aws/src/s3_publication.rs:126-133 | without deletes a call answered 412, or 409 with an object stored, asks again and, unless that request is lost, returns Ok if the object is its own and a mismatch otherwise |
| `Publication.RefusedForCause` | crates/bg-jobs-aws/src/s3_publication.rs:106-136 | a PUT answered 412 means that something is stored |
| `Publication.ConflictMeans409` | crates/bg-jobs-aws/src/s3_publication.rs:126-136 | only a call answered 409 while nothing was stored can end in a conflict |
| `Publication.FailedIff` | crates/bg-jobs-aws/src/s3_publication.rs:106-166 | a call ends in a failed request iff one of its requests was lost or answered with another status |
| `Publication.CallsEnd` | crates/bg-jobs-aws/src/s3_publication.rs:106-136 | a call never goes back: it sends at most one PUT and has returned after at most five steps of its own |
| `Publication.DeleteLetsBothSucceed` | crates/bg-jobs-aws/src/s3_publication.rs:106-136 | with one delete any two publishers both succeed, so the exclusion of deletes is needed |
| `Attempts.RegistryIsLiveGuards` | crates/bg-jobs/src/engine.rs:71-164 | in every reachable state the registry holds exactly the live guards, with their tokens |
| `Attempts.StaysRegistered` | crates/bg-jobs/src/engine.rs:71-164 | an attempt leaves the registry only when its guard is dropped or its refresh fails |
| `Attempts.CancelledWithCause` | crates/bg-jobs/src/engine.rs:114-177 | a token is cancelled only by a shutdown, a marker of its own attempt, or from elsewhere |
| `Attempts.MarkerCancels` | crates/bg-jobs/src/engine.rs:223-240 | a cancellation marker found while registering cancels the attempt for good |
| `Attempts.RegistrationSignalsAll` | crates/bg-jobs/src/engine.rs:142-177 | a registration that finds the flag set has, once finished, cancelled every attempt active when it looked |
| `Attempts.FailureUnregisters` | crates/bg-jobs/src/engine.rs:142-158 | an attempt whose refresh fails is never registered again |
| `Attempts.NoAttemptEscapes` | crates/bg-jobs/src/engine.rs:114-177 | once a shutdown request and a registration have finished, in any interleaving and however often the flag was cleared before the request, the live attempt's token is cancelled unless the flag was cleared since |
| `Attempts.RequestSetFlag` | crates/bg-jobs/src/engine.rs:114-117 | every request past that point set the flag at some step, so the row above speaks of every finished request |
| `Attempts.ClearedLetsAttemptEscape` | crates/bg-jobs/src/engine.rs:119-158 | every run that ends with the flag down goes on to an attempt no finished request signalled |
| `Attempts.ClearLetsAttemptEscape` | crates/bg-jobs/src/engine.rs:119-122 | a run with a cleared flag in which a finished request misses an attempt |
| `Mailbox.LifecycleMailbox.constructor` | crates/buffered-writes/src/lifecycle_mailbox.rs:6-11 | a new mailbox is empty and not terminating |
| `Mailbox.LifecycleMailbox.Push` | crates/buffered-writes/src/lifecycle_mailbox.rs:13-29 | the object's state stays that of its whole history, now with this push |
| `Mailbox.LifecycleMailbox.Take` | crates/buffered-writes/src/lifecycle_mailbox.rs:31-33 | what is taken is the join of everything pushed since the last take, and only a shutdown after any shutdown |
| `Mailbox.ShortestIff` | crates/buffered-writes/src/configuration/deadline.rs:38-55 | for any two deadlines, the kept one leaves no more time than either from then on iff neither is an undated one that passes for the shorter |
| `Mailbox.AnchoredIsMade` | crates/buffered-writes/src/configuration/deadline.rs:24-30 | every deadline anchored by now, dated or too long to date, is one the next row speaks of |
| `Mailbox.ShorterIsKept` | crates/buffered-writes/src/configuration/deadline.rs:24-55 | of two deadlines made by now, dated or too long to date, the shorter is kept for good |
| `Mailbox.FutureAnchorKept` | crates/buffered-writes/src/configuration/deadline.rs:25-30 | a deadline anchored in the future that is kept over a shorter one |
| `Mailbox.HoldsJoin` | crates/buffered-writes/src/lifecycle_mailbox.rs:13-33 | after any history the mailbox holds the join of the pushes since the last take: the earliest shutdown, else a flush, else the last ordinary trigger |
| `Mailbox.OnlyShutdownAfterShutdown` | crates/buffered-writes/src/lifecycle_mailbox.rs:13-33 | after any pushed shutdown only a shutdown is ever pending |
| `Channel.NoLostWakeup` | crates/buffered-writes/src/lifecycle.rs:88-155 | in every reachable state a pending event never meets only sleeping waiters, and a closed channel or a stored permit meets none |
| `Channel.BoxIsHistory` | crates/buffered-writes/src/lifecycle.rs:88-155 | in every run the mailbox is what the sends while open and the events returned so far make of it |
| `Channel.ReturnsJoin` | crates/buffered-writes/src/lifecycle.rs:119-155 | every event returned is the join of the sends since the one returned before it |
| `Channel.SendPendsIff` | crates/buffered-writes/src/lifecycle.rs:88-96 | a send on an open channel leaves an event pending iff it is a shutdown, none was taken before, or one is pending |
| `Channel.SentIsDelivered` | crates/buffered-writes/src/lifecycle.rs:88-155 | after such a send the next poll, whoever makes it, returns an event |
| `Channel.ReturnsAreLogged` | crates/buffered-writes/src/lifecycle.rs:119-155 | whatever a waiter returned is accounted for, and an open channel has told nobody of an end |
| `Channel.ClosedForever` | crates/buffered-writes/src/lifecycle.rs:88-105 | after a close nothing new becomes pending and nothing returned is taken back |
| `Channel.PendingBeforeEnd` | crates/buffered-writes/src/lifecycle.rs:119-155 | the event pending at close is the next thing returned, and everything after it is the end |
| `Channel.EndOnlyWhenClosed` | crates/buffered-writes/src/lifecycle.rs:119-155 | the end is reported only by a closed channel with nothing pending |
| `Credentials.OneHolder` | crates/lru-ttl-cache/src/singleflight.rs:27-79 | while removals spare every waiter and holder of the gate, at most one guard is held |
| `Credentials.NoOverlap` | crates/aws-credentials/src/provider.rs:151-173 | while removals spare the callers that can still resolve, two resolutions never overlap, not even with a command whose caller was cancelled |
| `Credentials.NoNeedlessResolution` | crates/aws-credentials/src/provider.rs:151-173 | while removals spare the callers that can still store a value, no resolution starts with an unexpired one cached |
| `Credentials.CommandHoldsGate` | crates/aws-credentials/src/provider.rs:407-419 | from its start until it exits, whatever becomes of its caller, a command keeps the guard held and counts as a running resolution |
| `Credentials.CountedAlone` | crates/lru-ttl-cache/src/singleflight.rs:62-79 | a guard about to remove its gate found itself alone when it counted |
| `CredentialRaces.RemovalLetsTwoHold` | crates/lru-ttl-cache/src/singleflight.rs:62-79 | every run that meets a removal under a waiter or holder goes on, with no other removal, to two holders |
| `CredentialRaces.RemovalLetsTwoResolve` | crates/lru-ttl-cache/src/singleflight.rs:62-79 | every run that meets a removal under a caller that can still resolve goes on, with no other removal, to two overlapping resolutions |
| `CredentialRaces.RemovalLetsNeedless` | crates/lru-ttl-cache/src/singleflight.rs:62-79 | every run that so far spared the callers that can still store and meets a removal under one goes on, with no other removal, to a resolution with an unexpired value cached |
| `CredentialRaces.OverlapFromInit` | crates/lru-ttl-cache/src/singleflight.rs:62-79 | a run from the initial state in which two resolutions overlap |
| `CredentialRaces.NeedlessFromInit` | crates/aws-credentials/src/provider.rs:151-173 | a run from the initial state in which a resolution starts with an unexpired value cached |
| `CredentialTimes.ServedInTime` | crates/aws-credentials/src/provider.rs:175-185 | in every run a cached value with an expiry is served more than five minutes before it and metadata without one within ten minutes of being resolved, up to the storing delay, and a static value within a day of storing |
| `CredentialTimes.StoreReplaces` | crates/aws-credentials/src/provider.rs:179-185 | a store leaves the value just resolved cached and fresh, or nothing if its refresh time had come |
| `CredentialTimes.FiveMinutesIff` | crates/aws-credentials/src/provider.rs:1078-1095 | a value served in any run leaves at least five minutes at every moment it can be served iff it was stored within a nanosecond of computing its lifetime |
| `CredentialTimes.DelayServesLate` | crates/aws-credentials/src/provider.rs:179-185 | every run with a fresh cached value that has an expiry and was stored more than a nanosecond late goes on to serve it with less than five minutes left |
| `CredentialTimes.LateFromInit` | crates/aws-credentials/src/provider.rs:151-185 | a run from the initial state in which a value is served less than five minutes before its expiry |
| `QueueConsumer.SettledExactly` | crates/bg-jobs-tokio/src/queue_consumer.rs:54-104 | in every run a delivery is executed and settled at most once, only with what its execution returned and with no lost lease; one no longer held was executed until it returned or lost its lease, or its worker has exited, and was settled exactly when its execution returned an outcome |
| `QueueConsumer.OneWorkerPerDelivery` | crates/bg-jobs-tokio/src/queue_consumer.rs:54-86 | a delivery, each receive being one of its own, stays with the worker that received it |
| `QueueConsumer.BoundedConcurrency` | crates/bg-jobs-tokio/src/queue_consumer.rs:35-51 | never more deliveries in hand than workers were started |
| `QueueConsumer.Drains` | crates/bg-jobs-tokio/src/queue_consumer.rs:54-86 | once stopping, no receive begins, each worker begins at most one more execution, and only one already cleared, and exits within four steps besides renewals |
| `QueueConsumer.NoExitUntold` | crates/bg-jobs-tokio/src/queue_consumer.rs:54-86 | no worker exits unless it was told to stop or the consumer was dropped |
| `QueueConsumer.PauseAfterFailure` | crates/bg-jobs-tokio/src/queue_consumer.rs:71-77 | after a failed receive a worker has paused before it does anything else but exit |
| `QueueConsumer.EmptyReceiveGoesOn` | crates/bg-jobs-tokio/src/queue_consumer.rs:59-70 | an empty receive is followed by the next one at once |
| `QueueConsumer.StopsWhenClosed` | crates/bg-jobs-tokio/src/queue_consumer.rs:106-116 | when the sender is gone the consumer is stopping for good, and a sent stop holds until taken back |
| `QueueConsumer.NeverStuck` | crates/bg-jobs-tokio/src/queue_consumer.rs:54-116 | a stopping worker that has not exited has a step to take: an executing one its handler's return, a renewing one the answer, any other one of its own |
| `Lease.Run` | crates/bg-jobs-tokio/src/lease_heartbeat.rs:19-49 | the operation's output is returned iff no renewal due before it was ready fails, else the first failure's error; when it returns under cancelling and draining, and how often it renewed |
| `Lease.StartsIncrease` | crates/bg-jobs-tokio/src/lease_heartbeat.rs:27-46 | renewals start one after another, at least the interval apart |
| `Resident.NeverParkedAfterShutdown` | crates/bg-jobs-tokio/src/runtime.rs:264-335 | once any shutdown request has completed the loop is not parked unheard and always has a step that needs no timer |
| `Resident.DrivesAtMostOnce` | crates/bg-jobs-tokio/src/runtime.rs:352-375 | from the moment the flag is set the loop starts at most one more drive, only if it was about to, and returns within three steps |
| `Resident.ShutdownOnlyIfRequested` | crates/bg-jobs-tokio/src/runtime.rs:311-375 | the loop ends in shutdown only after one was requested |
| `Resident.ErrorIff` | crates/bg-jobs-tokio/src/runtime.rs:352-375 | the loop ends in an error iff a drive failed for good or no timer was to be had |
| `Resident.DrivesAgain` | crates/bg-jobs-tokio/src/runtime.rs:352-375 | while no shutdown is requested a loop that has not returned comes back to driving within eight steps |
| `Resident.EngineTold` | crates/bg-jobs-tokio/src/runtime.rs:264-271 | a request leaves the engine told to stop until somebody clears it |
| `Resident.StoppedIsLast` | crates/bg-jobs-tokio/src/runtime.rs:352-375 | a drive that reports shutdown is the last thing the loop does |
| `Resident.TimerBeforeWait` | crates/bg-jobs-tokio/src/runtime.rs:311-335 | the loop never waits without a timer made since its last drive |
| `Resident.WakeDelayBounds` | crates/bg-jobs-tokio/src/runtime.rs:280-295 | merging hints takes the shorter delay, delays stay between the floor and the safety interval, and inside it a wake time is met exactly |
| `Batch.OpenSlots` | crates/bg-jobs-http/src/batch.rs:223-228 | opening slots fails iff an item repeats |
| `Batch.ClassifyResponses` | crates/bg-jobs-http/src/batch.rs:217-246 | fails iff an item repeats or a response names no item; otherwise each slot holds what the replies naming it deserve |
| `Batch.ClassifyItems` | crates/bg-jobs-http/src/batch.rs:198-215 | one verdict per item in item order, its own classification iff exactly one response names it, the invariant retry otherwise |
| `Batch.PermutationInvariant` | crates/bg-jobs-http/src/batch.rs:198-246 | permuting the responses changes no verdict and not whether the batch fails |
| `Batch.OthersDoNotMatter` | crates/bg-jobs-http/src/batch.rs:181-183 | responses naming other items leave an item's verdict alone |
| `PartialWrites.CompleteExcept` | crates/buffered-writes/src/write_attempt.rs:222-253 | fails iff a left-out ID is foreign or repeated; otherwise reports exactly the others completed |
| `PartialWrites.BuiltReportsAreValid` | crates/buffered-writes/src/write_attempt.rs:222-268 | a report accepted when built is never invalid when classified |
| `PartialWrites.InvalidIff` | crates/buffered-writes/src/write_outcome.rs:43-66 | a report is invalid iff it names an operation that was not dispatched |
| `PartialWrites.WrittenIff` | crates/buffered-writes/src/write_outcome.rs:43-66 | a valid partial report counts as written iff all dispatched operations are distinct and completed |
| `PartialWrites.FailureIff` | crates/buffered-writes/src/write_outcome.rs:68-87 | which failure is reported, in terms of single operations |
| `PartialWrites.LeftIsWhatRemains` | crates/buffered-writes/src/write_attempt.rs:222-253 | reporting all but some operations and classifying the report leaves exactly those |
| `PartialWrites.ConservedAlways` | crates/buffered-writes/src/retention/settlement.rs:11-48 | over every sequence of leases, attempts, hand-offs and lost replies completed and pending operations partition the batch |
| `PartialWrites.EachOperationOnce` | crates/buffered-writes/src/engine/delivery/attempt.rs:83-202 | no operation is recorded twice, each attempt dispatches exactly the unrecorded ones, and a written batch recorded each exactly once |
| `PartialWrites.AttemptLeaves` | crates/buffered-writes/src/engine/delivery/attempt.rs:83-165 | where every attempt leaves the batch: written iff all dispatched operations are done, quarantined iff one was rejected for good, set aside on a report that makes no sense or a refused settlement, and otherwise still in its turn |
| `PartialWrites.AttemptRecords` | crates/buffered-writes/src/engine/delivery/attempt.rs:127-165 | what the sink reported completed is recorded by an attempt that does not complete, unless its settlement is refused |
| `PartialWrites.QuarantinedForCause` | crates/buffered-writes/src/engine/delivery/settlement.rs:47-88 | a batch is quarantined only by an attempt in which the sink rejected something for good |
| `PartialWrites.HandOffLeaves` | crates/buffered-writes/src/engine/delivery/settlement.rs:98-133 | a hand-off records nothing and ends the turn iff its publication was heard of |
| `PartialWrites.PublicationsCounted` | crates/buffered-writes/src/engine/delivery/settlement.rs:105-115 | every accepted publication counts, heard of or not |
| `PartialWrites.NothingLost` | crates/buffered-writes/src/engine/delivery/settlement.rs:98-133 | in every run a batch written or handed off has each operation recorded or published |
| `PartialWrites.HandOffOnceIff` | crates/buffered-writes/src/engine/delivery/settlement.rs:98-133 | from every reachable turn a settled hand-off sends each operation one way only iff nothing of the batch was recorded or published before |
| `PartialWrites.WriteOnceIff` | crates/buffered-writes/src/engine/delivery/attempt.rs:96-119 | from every reachable turn an attempt that settles the batch as written leaves each operation sent one way only iff the batch was never published |
| `PartialWrites.HandOffAfterCheckpoint` | crates/buffered-writes/src/engine/delivery/settlement.rs:8-45 | a run in which an operation is recorded by a checkpoint and then published with the batch |
| `PartialWrites.WriteAfterHandOff` | crates/buffered-writes/src/engine/delivery/settlement.rs:116-122 | a run in which a published batch is kept because its settlement was refused, and then written |

## Left out

- Object form of the concurrent parts: `Publication`, `Attempts`, `Channel`, `Credentials`, `QueueConsumer` and `Resident` are state machines over values, one action per atomic step; memory ordering weaker than interleaving, mutex poisoning and task scheduling fairness are not captured.
- Liveness is stated as "a step is enabled" and as bounds on the number of steps; that an enabled step is eventually taken is not.
- FaultStore.FaultStore.Commit: sequential calls only, since the wrapper takes its locks separately; read faults and the counting wrapper are left out, they would only add easy members.
- Store construction: transaction counts, unique-key and non-empty-key checks made when a transaction or key is built are not repeated by the store and appear only where a lemma needs them.
- ValkeyScript.SoundAlways: assumes proposals of one revision, as the clients' encoder builds them; the encoding, the digest and server eviction of keys are left out.
- Publication.PublishedTruthfully: deletes and foreign writers are excluded, as an immutable publication assumes; signing, retries of the HTTP client and content digests are left out.
- Attempts.NoAttemptEscapes: excludes clearing the shutdown flag between the request and the state considered, as `Attempts.ClearedLetsAttemptEscape` requires, and assumes distinct authorities.
- Credentials.NoOverlap: states the promise for removals that spare the callers concerned, since it fails otherwise; see above. Callers are dropped before they run or where they await; unwinding from a panic is not modelled.
- CredentialTimes.ServedInTime: one nanosecond clock stands for system time and the cache's monotonic clock; adjustments of the system clock, eviction by capacity and instants past the cache's range are left out, as are the providers of the chain themselves. Expiries are those an RFC 3339 timestamp can name.
- QueueConsumer.SettledExactly: leases on the queue's side are not modelled, so redelivery of an unsettled message is a new delivery.
- Lease.Run: time is in whole units and a renewal's answer is a function of its number.
- Resident.NeverParkedAfterShutdown: one resident loop; further tasks waiting on the same runtime share its single notification and are woken by their timers.
- Batch.ClassifyItems: the status table and Retry-After parsing are a parameter.
- PartialWrites.EachOperationOnce: one lease at a time, as the fencing token enforces; reasons, retry delays and the order of the completed list are left out, and an identity conflict is treated like a permanent rejection.
- Mailbox.HoldsJoin: pushes carry non-decreasing times, as a monotonic clock gives, and deadlines made by then; one anchored in the future fails as `Mailbox.FutureAnchorKept` shows.
- The drive, claim, schedule and lifecycle engines of the job system, disk and Valkey retention formats, HTTP, AWS CLI and metadata I/O, JOSE, SAML, WebAuthn, XML and Cedar are not part of this model.
