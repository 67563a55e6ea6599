# Verification models of Archivist

Archivist reads documents from Paperless, asks language models about them and writes the
result back. This project models the parts of it whose correctness is hard to see from one
function, and proves what they promise.

**Applying a patch** (`Patches`, `ApplyIntents`, `ApplyHistory`, `ApplyProtocol`,
`ApplySafety`, `ApplyLoop`, `ApplyLock`, `ApplyTogether`). A PATCH to Paperless is preceded
by a durable intent row, sent under an advisory lock of its source key, and an ambiguous
outcome is settled by reading the document. `ApplyProtocol` is a step relation over the
rows, the document, the requests still on the wire, the process inside the lock and a
history of events; processes, recovery, crashes, lost and late requests and edits by others
interleave freely. `ApplySafety` states the results over all runs. `ApplyLoop` is the loop
of `apply_document_inner` over mutable state; every statement of it is one action of the
protocol, so the results hold of the loop. Which statements fail, and what others do before
each, is given, and the results are proved to be decided by that. `ApplyLock` models pooled
PostgreSQL sessions, their re-entrant advisory locks and the guard object that releases
them. `ApplyTogether` puts both together: any number of sessions run the apply body behind
their guards, and the protocol with one process inside is proved to have the same runs as
they.

**Deciding what to send** (`ReviewMerge`, `CustomFieldOrder`, `PatchCodec`). A reviewed
decision is merged with the document as it is now; the resulting body is persisted as JSON.

**Settling reviews** (`ReviewClaims`, `ReviewClaimSafety`, `ReviewClaimGaps`,
`ReviewRecovery`, `ReviewSettling`). `ReviewClaims` is a step relation over one review, its
intent rows and everybody who settles them: decisions, the drain's listing, claims, the
claiming process from the claim to its last write, recovery from its listing to its last
write, the sweep of stale reviews and crashes; every read and every separately committed
write is one step. `ReviewClaimSafety` proves what holds in every fair run,
`ReviewClaimGaps` that fairness is exactly the condition and that each way of breaking it is
reached. `ReviewRecovery` is about recovery alone: where it ends however often it dies, when
it is stuck, and when it takes a fresh claim away. `ReviewSettling` has the settling
functions statement by statement; what others do between any two of them and which
statements fail is given, and decides the result.

**The audit chain** (`AuditChain`, `AuditVerifier`, `AuditAppend`, `AuditRetention`). Hashes
are free constructors, which is what collision freedom means here. Appending, paged
verification with the recovery of lost timestamp digits, retention in batches and the
pruning of runs.

**Text and streams** (`Text`, `BoundedBody`, `ChatStream`, `ThinkStrip`, `FenceNeutralizer`,
`IntegerText`, `MonetaryText`). Each loop is proved against a simple reading of its input.

**Rate limiting** (`RateLimiter`) and **stored responses** (`ArtifactRedaction`, over
`Json`).

## Assumptions

- A PATCH whose call returned, or whose process died, does not reach the document after the
  next GET; a GET therefore empties the wire in `ApplyProtocol.Observe`.
- A database session ends only with its process: the runs of `SessionsLive`. `ApplyTogether`
  proves from it that at most one process is `inside` in `ApplyProtocol`; `ApplyLock` shows
  what happens otherwise.
- Audit hashes are collision free, and a row's patch hash identifies its body. Nothing is
  assumed of the fingerprints of fields: `ReviewMerge.ConflictIsExact` says what a collision of
  the two values it compares would hide.
- Appenders read at the default isolation level and chain positions come from a sequence.
- Writes of other sources, users and programs to the document are `Edit` steps.
- An object of a JSON tree is a map: `IsMap` in `ArtifactRedaction` says no key occurs twice.
- Lossy UTF-8 decoding of a line keeps an appended carriage return (`DecodesReturn`).

## Where the code does not do what one would expect

Each has a lemma with a concrete input or an exact condition.

- `PatchCodec.RoundTripExactly`: a body that sets custom fields to null comes back without
  them; every other body round-trips. `ApplySafety.NullBodyIsStranded`: recovery cannot settle
  the row of such a body. The callers build bodies from JSON or from a list of fields, so none
  of them sends one; the type and the stored rows admit it.
- `ApplyLock.TwoMayEnterExactly`: two processes can get inside the body of a source exactly
  when the server has dropped the session of one that is inside or has been granted the lock;
  `LostSessionAdmitsTwo` is a run, and without lost sessions it never happens
  (`OneBodyPerSource`).
- `AuditRetention.WindowIsKeptExactly`: with no row inside the window the boundary is the
  largest position, and rows appended during the run are deleted.
- `AuditRetention.PruningRunsExactly`: run and job references are hashed, so pruning a run or
  job that a hashed event names makes the chain fail verification.
- `ReviewClaimGaps.FairIsExact`: a finalized success can stand beside a review that is not
  applied. It cannot as long as every claim starts with no unsettled failure, no other process
  still on its error path and no recovery run about to revert, and the sweep of stale reviews
  spares a claim whose process has not prepared its intent; and the first step that breaks
  this opens a way there. All four ways are reached from an untouched review:
  `ClaimBesideUnsettledFailureIsReached`, `ClaimBesideStaleRecoveryIsReached`,
  `ClaimBesideErrorPathIsReached`, `SweepOfFreshClaimIsReached`.
- `ReviewRecovery.StuckIsReached`: the drain has listed a pending review; meanwhile a user's
  attempt on it fails and is settled; when the drain comes to the review, it opens the user's
  row again for the same body. The row keeps its source but gets an owner that is no UUID. If
  the drain then dies, recovery fails on that row for ever and the review stays `applying`;
  `LeftSuccessSettlesExactly` says when this is so. A listing taken after the failure skips
  the review.
- `AuditChain.NullAndAbsentShareAHash`: a null `before`, `after` or `metadata` and an absent
  one have one hash; `PrintedAlikeVerifiesAlike` and `HashBindsRow` say that nothing else is lost.
- `RateLimiter.BackwardTimeAdmitsMore`: callers read the clock before they take the lock, so
  times may go back; then the admission bound fails without limit, and
  `RateLimiterCrowds.ForwardStepsBoundAdmissions` is what holds for as many addresses as the
  map keeps. `RateLimiterCrowds.PurgeForgetsSpending`: with one address more not even that.
- `CustomFieldOrder.OrderIsIgnoredExactly`: the order of custom fields is ignored exactly while
  no two different entries share a key, or all entries are equal where one has no key.

## Model

| member | source | states |
|---|---|---|
| ApplyProtocol.NextKeeps | crates/archivist-apply/src/lib.rs:478-686 | every step by anybody, a crash included, keeps the protocol invariant: row states fit the history, at most one request of an attempt is on the wire, the lock holder's program point fits its row |
| ApplySafety.ReachableInv | crates/archivist-apply/src/lib.rs:478-686 | the invariant holds in every reachable state |
| ApplySafety.PatchesAreSeparated | crates/archivist-apply/src/lib.rs:637-659 | in every run, between two PATCHes of one attempt lies a GET that saw the document without the body |
| ApplySafety.PatchBudget | crates/archivist-apply/src/lib.rs:962 | unless a new decision opens the row again, one attempt sends at most 1 + 5 PATCHes |
| ApplySafety.SenderClaimed | crates/archivist-apply/src/lib.rs:548-570 | a PATCH is sent only by the process that itself moved the row from prepared to in_flight, once per claim |
| ApplySafety.SuccessIsReal | crates/archivist-apply/src/lib.rs:570-622 | a row in a success state: the document carried the body after the row last became in_flight |
| ApplySafety.ReportIsReal | crates/archivist-apply/src/lib.rs:507-528 | whenever a process returns a successful execution, the document had carried the body since in_flight |
| ApplySafety.EffectIsNotRepeated | crates/archivist-apply/src/lib.rs:871-900 | a body takes effect again only after a foreign write in between |
| ApplySafety.ClaimsAreNotLost | crates/archivist-apply/src/lib.rs:549-567 | under the lock no compare-and-set of the apply body ever fails |
| ApplySafety.NullBodyIsStranded | crates/archivist-apply/src/lib.rs:771-792 | a row whose body sets custom fields to null is changed by no run in which nobody asks for that body again, however often it is resumed |
| ApplySafety.ResumeFindsItsRow | crates/archivist-apply/src/lib.rs:771-792 | a row is resumed as itself exactly when its body does not set custom fields to null; the request carries the decoded body; it is resumed for its own owner, without the fallback |
| Patches.MatchesExactly | crates/archivist-paperless/src/lib.rs:710-735 | a document matches a body exactly when writing the body would change none of its seven fields, tags taken as a set |
| ApplyIntents.PreparedIsLive | crates/archivist-db/src/reviews.rs:687-775 | preparing leaves a row that somebody may execute, finalize or settle; new rows and settled failures start over for the request, every other row is untouched |
| ApplyProtocol.Reduced | crates/archivist-apply/src/lib.rs:668-676 | the fallback request differs in custom fields and in the fallback flag only |
| ApplyTogether.RunsAreProtocolRuns | crates/archivist-apply/src/lib.rs:444-449 | refinement: any number of processes running the body behind session locks produce only runs of the protocol with one process inside, while no session is dropped under a live process |
| ApplyTogether.ProtocolRunsAreRuns | crates/archivist-apply/src/lib.rs:444-476 | and conversely every run of the protocol is one of processes behind their locks, so it allows no more than they do |
| ApplyTogether.PatchesAreSeparated | crates/archivist-apply/src/lib.rs:637-659 | hence between two PATCHes of one attempt lies a GET that missed, with mutual exclusion proved instead of built in |
| ApplyLoop.ReachesOneMore | crates/archivist-apply/src/lib.rs:478-686 | a step after a run is a run, which ties each statement of the loop to the protocol |
| ApplyLoop.Session.PrepareIntent | crates/archivist-db/src/reviews.rs:675-806 | finds or creates the row of the body; fails exactly when the database does; the row's state says what comes next |
| ApplyLoop.Session.ClaimIntent | crates/archivist-db/src/reviews.rs:847-865 | under the lock the claim succeeds unless the database fails or its answer is lost; only this row changes, to in flight for this owner |
| ApplyLoop.Session.PatchDocument | crates/archivist-apply/src/lib.rs:570-610 | exactly one more body is sent while others act around the call; it succeeds exactly if the request landed and the response came back, else the error is the one given |
| ApplyLoop.Session.ConfirmIntent | crates/archivist-db/src/reviews.rs:867-928 | after a success response the row is confirmed by its owner, unless the statement fails or its answer is lost; then the body ends although the PATCH landed |
| ApplyLoop.Session.GetDocument | crates/archivist-apply/src/lib.rs:610-636 | fails exactly when the request does; the document read, recorded last in the history, decides between reconciling and giving up |
| ApplyLoop.Session.ReconcileIntent | crates/archivist-db/src/reviews.rs:930-984 | a matching document makes the row reconciled, unless the statement fails or its answer is lost |
| ApplyLoop.Session.ReleaseIntent | crates/archivist-db/src/reviews.rs:1047-1108 | a transient failure returns the row to prepared exactly while the retry budget lasts; other errors do not ask the database, whose failure ends the body |
| ApplyLoop.Session.FailIntent | crates/archivist-db/src/reviews.rs:986-1045 | the row fails unless the statement does, and the loop goes on without custom fields exactly after a 400 about them with fallback allowed |
| ApplyLoop.Session.ReconcileExisting | crates/archivist-apply/src/lib.rs:871-914 | an in-flight row is settled by a GET and nothing is sent: the result is decided by the given failures and by whether that document matches |
| ApplyLoop.Session.GiveUp | crates/archivist-apply/src/lib.rs:637-678 | after a GET that missed: released, failed, or one round without custom fields, decided by the error, the budget and the given failures |
| ApplyLoop.Session.AfterPatchError | crates/archivist-apply/src/lib.rs:610-678 | after an error: reconciled exactly if the GET matches, else as GiveUp; an unreadable document or a database error is reported exactly when the statement failed |
| ApplyLoop.Session.SendAndRecord | crates/archivist-apply/src/lib.rs:570-678 | a claimed attempt sends its body once; a result is true of row and history |
| ApplyLoop.Session.Attempt | crates/archivist-apply/src/lib.rs:548-678 | one claim sends exactly one body, or none if the claim failed; each error is reported only when the row, a GET or a failed statement says so |
| ApplyLoop.Session.Round | crates/archivist-apply/src/lib.rs:484-678 | one round sends at most the body of its request |
| ApplyLoop.Session.ApplyDocumentInner | crates/archivist-apply/src/lib.rs:478-686 | terminates; at most two PATCHes, the second without custom fields after a 400 that a GET saw not applied; a returned execution names a body whose row is in that success state, a returned error is true of row and history, and without a failed statement neither an unreadable document nor a database error is reported |
| ApplyLock.NextKeeps | crates/archivist-db/src/apply_lock.rs:18-70 | every step of clients and server keeps owners and beliefs in agreement |
| ApplyLock.PoolIsClean | crates/archivist-db/src/apply_lock.rs:36-44 | no session that waits in the pool holds a lock |
| ApplyLock.BodiesExcludeEachOther | crates/archivist-db/src/apply_lock.rs:49-70 | two bodies of one source run only if the server dropped a session |
| ApplyLock.OneBodyPerSource | crates/archivist-apply/src/lib.rs:444-449 | while sessions die only with their clients, at most one process is inside the body of a source |
| ApplyLock.LostSessionAdmitsTwo | crates/archivist-db/src/apply_lock.rs:49-70 | a run with a dropped session that has two processes inside |
| ApplyLock.TwoMayEnterExactly | crates/archivist-db/src/apply_lock.rs:18-70 | in every reachable state, without further losses two processes get inside one source exactly when a dropped session guards it or has been sent its lock |
| ApplyLock.ApplySourceLock.constructor | crates/archivist-db/src/apply_lock.rs:8-16 | the guard owns its session |
| ApplyLock.ApplySourceLock.Drop | crates/archivist-db/src/apply_lock.rs:36-44 | a session still held is closed, never pooled |
| ApplyLock.ApplySourceLock.Release | crates/archivist-db/src/apply_lock.rs:20-33 | the session returns to the pool exactly when the unlock is served and answered; otherwise it is closed, with or without the lock given up |
| ApplyLock.TryLockApplySource | crates/archivist-db/src/apply_lock.rs:49-70 | the guard is returned exactly with the lock; busy leaves the locks and pools the session; a failed statement or a lost answer closes the session, with the lock it may have been granted |
| ReviewMerge.MergeTags | crates/archivist-apply/src/lib.rs:222-241 | the loops over additions and removals compute the three-way merge |
| ReviewMerge.Conflicts | crates/archivist-apply/src/lib.rs:136-191 | the fields reported are exactly those whose check fails |
| ReviewMerge.Prune | crates/archivist-apply/src/lib.rs:193-220 | fields that already have their value are dropped from the body |
| ReviewMerge.ResolveReviewPatch | crates/archivist-apply/src/lib.rs:130-245 | fails with exactly the conflicting fields, else returns the merged body |
| ReviewMerge.OwnBaselineNeverConflicts | crates/archivist-apply/src/lib.rs:112-125 | a document never conflicts with the baseline taken from it |
| ReviewMerge.ConflictIsExact | crates/archivist-apply/src/lib.rs:247-309 | against the baseline of the reviewed document, for every fingerprint function, a set field conflicts exactly when its value now is neither desired nor the reviewed one and the fingerprint tells these two apart |
| ReviewMerge.ResolutionAchievesDecision | crates/archivist-apply/src/lib.rs:130-245 | sending the resolved body achieves every decided field and leaves the others alone |
| ReviewMerge.TagsMergeThreeWays | crates/archivist-apply/src/lib.rs:222-245 | tag by tag: decided tags end as decided, every other tag stays as it is now |
| ReviewMerge.ResolvingAgainIsEmpty | crates/archivist-apply/src/lib.rs:130-245 | resolving again after the result landed leaves nothing to send |
| ReviewMerge.ResolvingAgainNeverConflicts | crates/archivist-apply/src/lib.rs:130-245 | and does not conflict |
| CustomFieldOrder.CanonicalIgnoresOrder | crates/archivist-apply/src/lib.rs:322-354 | reordering keyed custom fields never looks like a change, if no two different entries share a key |
| CustomFieldOrder.NamedFieldsInAnyOrder | crates/archivist-apply/src/lib.rs:326-341 | entries named by field, or else by id, may come in any order when their names differ |
| CustomFieldOrder.CanonicalExactly | crates/archivist-apply/src/lib.rs:322-341 | two lists have one canonical form exactly when they agree key by key, in order, or are equal where an entry has no key |
| CustomFieldOrder.OrderIsIgnoredExactly | crates/archivist-apply/src/lib.rs:322-341 | for every list, every order of its entries has one canonical form exactly when no two different entries share a key, or, where an entry has no key, when all are equal |
| PatchCodec.DecodeEncode | crates/archivist-core/src/lib.rs:4276-4309 | every persisted body decodes; unset, clear and value of a reference stay apart |
| PatchCodec.RoundTripExactly | crates/archivist-apply/src/lib.rs:771-792 | the identical body comes back exactly when custom fields are not null |
| PatchCodec.EncodeInjective | crates/archivist-apply/src/lib.rs:421-424 | different bodies are persisted differently, null custom fields included, so a row names its body |
| PatchCodec.RecoveredIsDecoded | crates/archivist-apply/src/lib.rs:771-792 | what a row yields is its decoded body, which decodes to itself |
| ReviewClaimSafety.NextKeeps | crates/archivist-api/src/routes/reviews.rs:735-869 | every fair step of anybody keeps the invariant: a nonterminal intent stands beside a claimed or applied review, one row is open, and every program point fits row, review and lock |
| ReviewClaimSafety.FairRunsKeep | crates/archivist-apply/src/lib.rs:694-869 | the invariant holds after every fair run |
| ReviewClaimSafety.FinalizedSuccessIsApplied | crates/archivist-db/src/reviews.rs:1420-1517 | in every fair run from an untouched review a finalized success has an applied review |
| ReviewClaimSafety.ClaimIsNotUndone | crates/archivist-db/src/reviews.rs:1167-1196 | in every fair run nobody takes the review from a claim whose process has not failed |
| ReviewClaimSafety.FailureIsSettledBesideReturnedReview | crates/archivist-apply/src/lib.rs:855-868 | in every fair run recovery settles a failure only beside a review that is neither claimed nor applied |
| ReviewClaimSafety.AppliedStays | crates/archivist-db/src/transitions.rs:590-697 | an applied review stays applied, whatever follows |
| ReviewClaimSafety.RejectedStays | crates/archivist-db/src/transitions.rs:590-697 | a rejected review stays rejected in every run |
| ReviewClaimSafety.AppliedHasSuccess | crates/archivist-db/src/reviews.rs:1420-1517 | in every run, fair or not, an applied review has an intent that succeeded |
| ReviewClaimSafety.ErrorsStrike | crates/archivist-api/src/routes/reviews.rs:748-869 | an error may strike a claiming process anywhere until its attempt returned, a user's also later; nothing changes but that the lock is given up |
| ReviewClaimSafety.ConflictReturns | crates/archivist-db/src/reviews.rs:1784-1845 | a conflict found after the claim returns the review and ends the process |
| ReviewClaimSafety.SweepEndsWhatIsSettled | crates/archivist-db/src/startup_repairs.rs:799-830 | after every fair run, once all intents are settled, one sweep returns a review that is claimed, approved or edited, and touches no other |
| ReviewClaims.PreparedAlike | crates/archivist-db/src/reviews.rs:687-775 | in the step relation preparing does to the row of any body what it does in ApplyIntents; a row keeps its source |
| ReviewClaimSafety.RecoveryFinalizesBesideApplied | crates/archivist-apply/src/lib.rs:794-828 | in every run, fair or not, recovery finalizes a success only beside an applied review |
| ReviewClaimGaps.FairIsExact | crates/archivist-db/src/startup_repairs.rs:799-830 | after a fair run: a fair step leaves every fair continuation without a finalized success beside an unapplied review, an unfair step opens a run that reaches one |
| ReviewClaimGaps.UnfairStepLoses | crates/archivist-api/src/routes/reviews.rs:748-793 | from every fairly reached state each unfair claim and each unfair sweep leads on to that end |
| ReviewClaimGaps.ClaimBesideUnsettledFailureIsReached | crates/archivist-api/src/routes/reviews.rs:774-780 | a fair run to a decided review with an unsettled failure: the user's process died between revert and settling |
| ReviewClaimGaps.ClaimBesideStaleRecoveryIsReached | crates/archivist-apply/src/lib.rs:841-854 | a fair run in which recovery has read a failure again that is settled meanwhile, and the review is decided anew |
| ReviewClaimGaps.ClaimBesideErrorPathIsReached | crates/archivist-db/src/startup_repairs.rs:799-830 | a fair run in which the review is decided anew while the process of the last claim has yet to look for its intents |
| ReviewClaimGaps.SweepOfFreshClaimIsReached | crates/archivist-worker/src/main.rs:368-390 | a fair run in which the sweep may return a review whose claim has not prepared an intent |
| ReviewRecovery.RecoveryIsCrashIdempotent | crates/archivist-apply/src/lib.rs:736-769 | while nobody decides or claims, however often recovery runs, fails and dies, a run that completes ends where the first one would have if the attempt had ended; from any state of the row, prepared and in flight included, it ends applied and finalized or returned and settled, given a claimed review and a fitting owner |
| ReviewRecovery.CompletionIsTheEnd | crates/archivist-apply/src/lib.rs:736-769 | a run completes only once the attempt has ended, and then: a success applies a claimed review and is finalized, a failure returns it and is settled |
| ReviewRecovery.StuckForever | crates/archivist-apply/src/lib.rs:809-820 | no run of anybody settles a success of a user's row that the drain opened again and left, nor frees its review |
| ReviewRecovery.LeftSuccessSettlesExactly | crates/archivist-apply/src/lib.rs:809-828 | a success left beside a claimed review can be settled exactly when the row is the drain's or its last owner is a user |
| ReviewRecovery.StuckIsReached | crates/archivist-db/src/reviews.rs:738-775 | a fair run from an untouched review to such a row, through a listing of the drain taken before the user's attempt failed |
| ReviewRecovery.FreshListingReopensNothing | crates/archivist-db/src/reviews.rs:1519-1590 | what the drain lists it can claim at once, and preparing then opens no failed row again |
| ReviewRecovery.RecoveryTakesClaimExactly | crates/archivist-apply/src/lib.rs:830-869 | after every fair run recovery alone can take a fresh claim away exactly when, at the claim, it was about to revert, or a failure was unsettled and no process of an earlier claim still held the source lock |
| ReviewSettling.BesideRecovery | crates/archivist-apply/src/lib.rs:694-733 | beside a recovery run nobody else enters the apply body, undoes a success or unsettles a failure |
| ReviewSettling.RecoveredIsTheEnd | crates/archivist-apply/src/lib.rs:736-869 | of an attempt that has ended, an undisturbed recovery run comes to the end that all completing runs share |
| ReviewSettling.Recoverer.SettleAppliedReview | crates/archivist-apply/src/lib.rs:794-828 | given failures and the steps of others: while no statement fails it succeeds exactly when the first status read is applying or applied, the row can be marked and the second read is applied; success means an applied review and a finalized row |
| ReviewSettling.Recoverer.ReturnFailed | crates/archivist-apply/src/lib.rs:841-869 | from the first status read on, likewise; undisturbed it returns a claimed review and settles the row exactly if the review is claimed or pending |
| ReviewSettling.Recoverer.SettleFailedReview | crates/archivist-apply/src/lib.rs:830-869 | given failures and the steps of others: while no statement fails it succeeds exactly when the failure is found settled or the second status read is pending; success means a settled failure |
| ReviewSettling.Recoverer.RecoverReviewApplyIntent | crates/archivist-apply/src/lib.rs:736-769 | each result it reports is true of review and row when it returns the lock; with no failures and nobody else acting the result and the state are exactly those of Recovered |
| AuditChain.VerifyEventHash | crates/archivist-db/src/audit.rs:312-373 | the search over 1000 suffixes returns the verdict the hash determines |
| AuditChain.CheckExactly | crates/archivist-db/src/audit.rs:561-659 | a hashed row is accepted exactly when it names its predecessor, has version 1 or 2, and the stored suffix, or else some three digits, reproduce its hash; the verdict is that suffix |
| AuditChain.FittingChainIsIntact | crates/archivist-db/src/audit.rs:553-685 | a chain whose hashed rows are hashed so and linked scans unbroken, with every hashed row checked and every row with lost digits counted |
| AuditChain.FirstMisfitIsReported | crates/archivist-db/src/audit.rs:561-659 | otherwise the first row that does not fit is reported, with what is wrong with it |
| AuditChain.LostDigitsAreRecovered | crates/archivist-db/src/audit.rs:312-373 | an event hashed at nanoseconds and stored at microseconds verifies with exactly the lost digits |
| AuditChain.TruncatedIsExact | crates/archivist-db/src/audit.rs:217-221 | a timestamp truncated before hashing verifies exactly |
| AuditChain.VerifyingAgain | crates/archivist-db/src/audit.rs:553-685 | scanning the rows a scan left behind gives the same scan, for intact and broken chains |
| AuditChain.HashBindsRow | crates/archivist-db/src/audit.rs:223-288 | two verified rows with one hash agree in every hashed field, up to null against absent, and in the reconstructed instant; origin from version 2 on |
| AuditChain.PrintedExactly | crates/archivist-db/src/audit.rs:229-288 | the hashed text shows every field, and hides only the difference between a null before, after or metadata and an absent one |
| AuditChain.PrintedAlikeVerifiesAlike | crates/archivist-db/src/audit.rs:229-288 | a row that differs only by null against absent verifies with the same verdict |
| AuditChain.NullAndAbsentShareAHash | crates/archivist-db/src/audit.rs:229-288 | a row with a null in place of an absent value is different and verifies with the same hash |
| AuditChain.IntactRows | crates/archivist-db/src/audit.rs:561-659 | in an intact chain every row verifies and names its predecessor |
| AuditChain.ChainsWithOneEndAgree | crates/archivist-db/src/audit.rs:223-288 | two intact chains with one last hash agree row by row in the same sense, as far back as both reach |
| AuditChain.UnhashedRowsDoNotMatter | crates/archivist-db/src/audit.rs:533-551 | rows without a hash do not change verdict or counters |
| AuditVerifier.AuditTable.VerifyRow | crates/archivist-db/src/audit.rs:561-682 | the checks of one row, and the write of a newly validated suffix |
| AuditVerifier.AuditTable.VerifyNext | crates/archivist-db/src/audit.rs:554-684 | one row of a page advances the counters of the pass |
| AuditVerifier.AuditTable.VerifyPage | crates/archivist-db/src/audit.rs:553-685 | a page advances the pass or ends it at the first problem |
| AuditVerifier.AuditTable.VerifyIntegrity | crates/archivist-db/src/audit.rs:509-698 | terminates; the report by pages of 256 is that of one pass, and the table ends with the pass's suffixes |
| AuditVerifier.ReportAddsUp | crates/archivist-db/src/audit.rs:512-524 | a good report covers the table: rows checked are those of versions 1 and 2, and with the rows without a hash they are all |
| AuditVerifier.SecondReportIsTheSame | crates/archivist-db/src/audit.rs:509-698 | a second verification reports the same |
| AuditAppend.AppendKeepsIntact | crates/archivist-db/src/audit.rs:151-207 | a row chained to the last hash keeps the chain intact |
| AuditAppend.NewEventRecords | crates/archivist-db/src/audit.rs:151-207 | the appended row records every field as given, at the instant in whole microseconds, with the hash and position it was chained to |
| AuditAppend.ChainRecordsCommitted | crates/archivist-db/src/audit.rs:135-207 | over any run the committed chain is the old one followed by exactly the events of the transactions that committed, as given and in order |
| AuditAppend.NextKeeps | crates/archivist-db/src/audit.rs:135-207 | every transaction step of every appender keeps the log's invariant |
| AuditAppend.ChainStaysIntact | crates/archivist-db/src/audit.rs:135-207 | however appenders interleave, commit and roll back, the committed chain verifies and only grows |
| AuditRetention.AuditTable.DeleteExpired | crates/archivist-db/src/audit.rs:841-866 | batches of any 5000 rows below the boundary, with arrivals in between, leave exactly the rows at or beyond it |
| AuditRetention.FromIsSuffix | crates/archivist-db/src/audit.rs:841-866 | what remains is a suffix in chain order |
| AuditRetention.RetentionKeepsIntact | crates/archivist-db/src/audit.rs:841-866 | and it still verifies |
| AuditRetention.BoundaryIsLeast | crates/archivist-db/src/audit.rs:841-847 | the boundary is the least position inside the window, or the largest position there is |
| AuditRetention.WindowIsKeptExactly | crates/archivist-db/src/audit.rs:841-847 | nothing inside the window is deleted exactly when it was not empty at the start or nothing inside it arrived |
| AuditRetention.LaterRunHeals | crates/archivist-db/src/audit.rs:848-866 | after a run interrupted between batches, any later run with a cutoff no earlier ends as on the untouched table |
| AuditRetention.PruningRunsExactly | crates/archivist-db/src/audit.rs:868-903 | after pruning runs and jobs the chain verifies exactly when no hashed event names one of them |
| BoundedBody.TakeBoundedResponseBody | crates/archivist-ai/src/lib.rs:161-213 | at most the limit is kept, flagged when there was more, whatever the chunks; an error carries what had arrived |
| BoundedBody.TruncateUtf8 | crates/archivist-ai/src/lib.rs:215-224 | walking back to a character boundary gives the longest run of whole characters that fits |
| BoundedBody.Utf8LengthIsLeast | crates/archivist-ai/src/lib.rs:215-224 | a character takes the fewest bytes with room for it |
| BoundedBody.TruncatedIsLongest | crates/archivist-ai/src/lib.rs:215-224 | the cut text is a prefix within the limit and the next character would not fit |
| ChatStream.ApplyLine | crates/archivist-ai/src/lib.rs:1852-1872 | one line delivers its delta, then signals the end or fails |
| ChatStream.OllamaEvent | crates/archivist-ai/src/lib.rs:1813-1822 | the text under message and content is the delta; a true done ends the stream |
| ChatStream.OpenAiEvent | crates/archivist-ai/src/lib.rs:1823-1831 | the content of the delta of the first choice is the delta |
| ChatStream.OpenAiDone | crates/archivist-ai/src/lib.rs:1791-1796 | the marker ends the stream |
| ChatStream.AnthropicEvent | crates/archivist-ai/src/lib.rs:1832-1848 | the text of a text delta is the delta, a message stop ends the stream, other events say nothing |
| ChatStream.ErrorEvent | crates/archivist-ai/src/lib.rs:1800-1810 | in every format an error member is reported with its message |
| ChatStream.EventLine | crates/archivist-ai/src/lib.rs:1777-1799 | a line is read as the event its payload parses to, without the field name in the event-stream formats |
| ChatStream.TakeLines | crates/archivist-ai/src/lib.rs:1897-1903 | the complete lines of the buffer are replayed in order up to the first that ends the stream |
| ChatStream.ReadChatStream | crates/archivist-ai/src/lib.rs:1877-1911 | deltas and result are those of the bytes received, read line by line |
| ChatStream.ChunkInvariance | crates/archivist-ai/src/lib.rs:1885-1896 | however a body within the limit is cut, all of it is received |
| ChatStream.SameBytesSameAnswer | crates/archivist-ai/src/lib.rs:1877-1911 | two chunkings of the same bytes are received alike; deltas, text, stop and error are functions of that |
| ChatStream.ReceivedWithinLimit | crates/archivist-ai/src/lib.rs:1888-1896 | the bytes replayed are a prefix of those sent, and no byte beyond the limit is among them |
| ChatStream.SplitIsUnique | crates/archivist-ai/src/lib.rs:1897-1905 | complete lines and rest are the only way to cut a body at its newlines |
| ChatStream.SplitsBody | crates/archivist-ai/src/lib.rs:1897-1905 | and they spell the body |
| ChatStream.EarlyStopIgnoresTheRest | crates/archivist-ai/src/lib.rs:1899-1901 | after the ending line neither further bytes nor a broken connection change the answer |
| ChatStream.DeltasAreTheText | crates/archivist-ai/src/lib.rs:1866-1871 | on success the deltas concatenate to the returned text; no delta is empty |
| ChatStream.OnlyPayloadLinesMatter | crates/archivist-ai/src/lib.rs:1777-1790 | comments, blank lines and other fields of an event stream (section 9.2.6 of the WHATWG HTML standard) never matter |
| ChatStream.LineEndsDoNotMatter | crates/archivist-ai/src/lib.rs:1777-1781 | LF and CR LF line ends give the same answer |
| ThinkStrip.Leftmost | crates/archivist-ai/src/lib.rs:1387-1395 | the leftmost of several searches, with no earlier occurrence of any |
| ThinkStrip.StripThinkBlocks | crates/archivist-ai/src/lib.rs:1375-1408 | jumping from tag to tag emits exactly the characters read while both depths are zero |
| ThinkStrip.TokensSpellTheText | crates/archivist-ai/src/lib.rs:1376-1381 | the tokens are the text, cut into tags and characters |
| ThinkStrip.DepthIsLargestExcess | crates/archivist-ai/src/lib.rs:1399-1403 | a depth is the largest excess of openers over closers of its family in any last stretch |
| ThinkStrip.OutsideIsBalanced | crates/archivist-ai/src/lib.rs:1397-1403 | both depths are zero exactly when no last stretch of tokens opens a family more often than it closes it |
| ThinkStrip.ShownExactly | crates/archivist-ai/src/lib.rs:1370-1374 | a character shows exactly when no stretch before it opens a family more often than it closes it; the other family's closers do not help |
| ThinkStrip.UnterminatedHidesTail | crates/archivist-ai/src/lib.rs:1370-1374 | an opener its family never closes hides everything after it |
| ThinkStrip.TagFreeUnchanged | crates/archivist-ai/src/lib.rs:1375-1408 | text without tags is returned unchanged |
| ThinkStrip.CountersAreExact | crates/archivist-ai/src/lib.rs:1399-1403 | the 32-bit counters equal unbounded ones exactly while no family nests deeper than they count |
| FenceNeutralizer.NeutralizeFenceDelimiters | crates/archivist-ai/src/lib.rs:2630-2657 | the scan breaks every delimiter it meets from left to right and copies the rest |
| FenceNeutralizer.OutputIsClean | crates/archivist-ai/src/lib.rs:2622-2629 | nowhere does the output spell a delimiter, in any ASCII case |
| FenceNeutralizer.CleanIsUnchanged | crates/archivist-ai/src/lib.rs:2630-2657 | text is left alone exactly when it holds no delimiter |
| FenceNeutralizer.NeutralizingAgain | crates/archivist-ai/src/lib.rs:2630-2657 | neutralising twice is neutralising once |
| FenceNeutralizer.TextIsPreserved | crates/archivist-ai/src/lib.rs:2622-2629 | with zero-width spaces erased, output and input are the same |
| RateLimiter.AuthRateLimiter.constructor | crates/archivist-api/src/auth.rs:29-36 | the window is at least a second |
| RateLimiter.AuthRateLimiter.Check | crates/archivist-api/src/auth.rs:40-73 | purge, refill, spend or deny, on the stored buckets |
| RateLimiter.PurgesAndOthersDoNotMatter | crates/archivist-api/src/auth.rs:50-57 | with forward time every answer is that of a bucket never purged that sees its own address only |
| RateLimiter.AdmissionBound | crates/archivist-api/src/auth.rs:17-22 | an address is admitted at most capacity + capacity * T / window times in any T seconds |
| RateLimiter.BurstIsAdmitted | crates/archivist-api/src/auth.rs:59-72 | at one instant exactly as many requests are admitted as the refilled bucket holds whole tokens |
| RateLimiter.RestedBurst | crates/archivist-api/src/auth.rs:59-67 | an address that is new or rested for a whole window is admitted capacity times at one instant |
| RateLimiterCrowds.OthersDoNotMatter | crates/archivist-api/src/auth.rs:50-57 | whatever the times, as many addresses as the map keeps are answered as if each were alone |
| RateLimiterCrowds.ForwardStepsBoundAdmissions | crates/archivist-api/src/auth.rs:62-67 | then, for any times and with others asking, the forward steps between an address's own requests bound its admissions |
| RateLimiterCrowds.PurgeForgetsSpending | crates/archivist-api/src/auth.rs:50-57 | with one address more, a limiter of one request admits two although no clock step passed between them |
| RateLimiter.BackwardTimeAdmitsMore | crates/archivist-api/src/auth.rs:66-67 | with a clock that goes back, any number of requests of one address is admitted within a second |
| RateLimiter.RetryAfterIsExact | crates/archivist-api/src/auth.rs:68-72 | a denied address is admitted after d whole seconds exactly when d is at least the returned wait |
| RateLimiter.DeniedRequestsDoNotMatter | crates/archivist-api/src/auth.rs:62-72 | asking while denied does not put off the next admission |
| IntegerText.GroupedDigits | crates/archivist-core/src/lib.rs:3602-3616 | without its separators a grouped number is digits only |
| IntegerText.PrintedIntegersAreRead | crates/archivist-core/src/lib.rs:3590-3621 | every integer is read from its form grouped by points and commas or by spaces and apostrophes: those of 64 bits come back, the others are refused |
| IntegerText.AcceptedExactly | crates/archivist-core/src/lib.rs:3585-3621 | a text is read exactly when, without spaces, apostrophes and a minus, it is plain digits or digits whose every fourth character from the end is a point or comma, and its number has 64 bits |
| IntegerText.OtherLastGroupsAreRejected | crates/archivist-core/src/lib.rs:3597-3604 | a point or comma not followed by exactly three last digits is rejected |
| MonetaryText.MixedSeparatorsAreRead | crates/archivist-core/src/lib.rs:3737-3739 | with points and commas the last separator is decimal and all before it only group; up to two decimals are read, none at all included, more are refused |
| MonetaryText.GroupsOfThreeAreRead | crates/archivist-core/src/lib.rs:3743-3749 | one kind of separator before exactly three last digits only groups thousands |
| MonetaryText.LoneSeparatorIsDecimal | crates/archivist-core/src/lib.rs:3746-3747 | a lone separator before one or two last digits is decimal |
| MonetaryText.OtherEndingsAreRejected | crates/archivist-core/src/lib.rs:3743-3752 | after one kind of separator any other ending is refused: none, more than three digits, or one or two after several |
| MonetaryText.CodeMayFollow | crates/archivist-core/src/lib.rs:3696-3706 | a three-letter code in any case behind the amount is read like one before it, with or without space between, and comes out in capitals |
| MonetaryText.SymbolsDoNotMatter | crates/archivist-core/src/lib.rs:3710-3714 | currency symbols before or behind an amount make no difference |
| MonetaryText.OtherCodesAreRejected | crates/archivist-core/src/lib.rs:3688-3706 | letters before or behind an amount that are not three refuse the text |
| MonetaryText.OnlyWireFormComesOut | crates/archivist-core/src/lib.rs:3678-3769 | whatever is accepted has the form of an optional code, sign, digits and two decimals |
| MonetaryText.ForeignIsRejected | crates/archivist-core/src/lib.rs:3684-3735 | a text with a character that is no digit, separator, sign, letter, symbol, apostrophe or white space is no amount |
| MonetaryText.WireFormIsFixed | crates/archivist-core/src/lib.rs:3684-3769 | the wire form reads as itself |
| MonetaryText.CoercingAgain | crates/archivist-core/src/lib.rs:3658-3676 | coercing an accepted amount again changes nothing |
| ArtifactRedaction.AiResponseTokenUsage | crates/archivist-db/src/artifacts.rs:185-225 | the summing loop computes the counters, pages only without a top-level usage |
| ArtifactRedaction.UsageObjectIsRead | crates/archivist-db/src/artifacts.rs:185-207 | of a usage object prompt and input tokens are input, completion and output tokens are output |
| ArtifactRedaction.EvalCountsAreRead | crates/archivist-db/src/artifacts.rs:185-207 | without one the evaluation counters at the top are input and output |
| ArtifactRedaction.PagesAreSummed | crates/archivist-db/src/artifacts.rs:209-224 | without a top-level usage the counters of all pages are added, with one none are |
| ArtifactRedaction.UsageSurvives | crates/archivist-db/src/artifacts.rs:310-348 | a rewrite that hides no number counter and not the way to it keeps the usage of every response |
| ArtifactRedaction.SensitiveIsTransparent | crates/archivist-core/src/lib.rs:4731-4789 | sensitive-key redaction is such a rewrite |
| ArtifactRedaction.ContentIsTransparent | crates/archivist-db/src/artifacts.rs:310-348 | content redaction is such a rewrite |
| ArtifactRedaction.FindCollected | crates/archivist-db/src/artifacts.rs:277-285 | collecting an object under cleaned keys, even where keys merge, keeps the members under plain keys |
| ArtifactRedaction.UsageCleaned | crates/archivist-db/src/artifacts.rs:267-289 | replacing U+0000 keeps the usage of every response |
| ArtifactRedaction.PreparedKeepsUsage | crates/archivist-db/src/artifacts.rs:291-308 | the counters of the raw response are those of the stored one, in full and redacted mode |
| ArtifactRedaction.RedactionSeals | crates/archivist-core/src/lib.rs:4731-4789 | after redaction no string is left under a sensitive key at any depth |
| ArtifactRedaction.ElsewhereIsKept | crates/archivist-core/src/lib.rs:4762-4789 | what no sensitive key leads to is found unchanged where it was |
| ArtifactRedaction.RedactingAgain | crates/archivist-core/src/lib.rs:4731-4789 | redacting twice is redacting once |
| ArtifactRedaction.CleanedIsNulFree | crates/archivist-db/src/artifacts.rs:267-289 | no string and no key holds U+0000 afterwards |
| ArtifactRedaction.NulFreeIsUnchanged | crates/archivist-db/src/artifacts.rs:267-289 | a value without U+0000 is not touched |
| ArtifactRedaction.PreparedIsNulFree | crates/archivist-db/src/artifacts.rs:291-308 | nor does the prepared value in either mode |
| ArtifactRedaction.FullIsSealed | crates/archivist-db/src/artifacts.rs:291-308 | cleaning the keys after redaction opens nothing: a response stored in full stays sealed |
| ArtifactRedaction.RedactedHasNoContent | crates/archivist-db/src/artifacts.rs:310-380 | in redacted mode nothing but scalars, nulls and marked digests is left under a content key, at any depth |
| ArtifactRedaction.ContainsAnyExactly | crates/archivist-db/src/artifacts.rs:329-336 | a key is hidden exactly when one of the fragments stands somewhere in it |

## Left out

- HTTP clients, SQL text, connection set-up, tracing, routing and metrics: only the atomic effects on rows, document, locks and chunks are steps.
- The review read before the lock is taken: nothing is claimed about edits between it and the PATCH.
- Runs of several source keys: a protocol instance has one key; the writes of other keys are edits to it.
- String validation in the preparation of an intent, patch hashing itself and the audit events written beside each row update.
- The redaction of audit payloads before they are appended, and the parts of security retention that delete other tables.
- Timestamps outside the range of the date library, and their overflow branch in verification; instants are unbounded integers.
- PendingNewObjects and the materialisation of new Paperless objects.
- Decoding of model metadata, provider settings and their defaults, the allowed-list prefilter: tables and per-field cases.
- The number branches of integer and money coercion, date, boolean and float coercion.
- Rounding: RateLimiter computes over reals where the program uses floating point.
- The metadata-only storage mode, which keeps a fixed selection of members and a digest.
- Overflow of token sums follows a release build, which wraps at 64 bits.
- The in-place rewriting of JSON trees is a function of the tree; aliasing does not occur in an owned tree.
- The positions of text loops are characters, not bytes; delimiters are ASCII, so the same characters are read.
- Intent rows written by earlier releases: rows that ask for a revert to `approved` or `edited`. Everything that writes a row now asks for `pending`, and ReviewClaims has no other.
- In ReviewClaims recovery prepares the row it was given; that a row with null custom fields is prepared as another one is ApplySafety.NullBodyIsStranded.
- The age at which the sweep takes a review, and the time limits of drain and recovery: ReviewClaims lets them strike at any moment.
- The hash-collision error of the preparation of an intent, which collision freedom rules out.
- RateLimiter.PurgesAndOthersDoNotMatter: asks for times that do not go back, because a bucket purged at a later time may not be full at an earlier one; RateLimiterCrowds says what holds otherwise.
