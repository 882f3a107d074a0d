# A verified model of the CSE filings pipeline

The pipeline finds the filings of listed companies, fetches their documents, decides which issuer a filing belongs to,
and turns printed statements into exact amounts. This project models its hardest parts in Dafny and proves what they
promise. `dafny verify dfyconfig.toml` checks everything.

## What is modelled

**The crash-safe discovery protocol.** `DiscoveryLedger` is the protocol as a machine over the ledger's tables: each
step is one transaction (claim, begin F1 run, intent, outcome, finish run, the reading of the evidence, item event,
lease close, expiry of a dead lease, promotion, G10), a crash may fall between any two, and operators and other users of
F1 act at any time, also between the reading of the evidence and the event that relies on it. `DiscoveryRuns` proves
that every step keeps one invariant; `DiscoveryTheorems` draws the conclusions over whole runs: no item in flight
without an active lease, no response lost or ingested twice, at most three requests between re-queues, when exactly a
recorded failure stands against successful evidence, and every item settled after finitely many slices.
`DiscoverySlice` is the worker's object with its methods in the worker's own order. Each commit may raise, whether or
not the database kept it, and each method proves that what it commits is the protocol's next step, enabled where it
commits it (a promotion, for one, only after every response of the dead claim is ingested), so whatever happens to the
process is a run covered by the theorems. It raises, stops or refuses only for a cause its contract names: a commit that
raised, a reply, the armed maximum. `DiscoverySettling` runs such slices one after another: however many fail, stop or
crash, more clean slices than an item may be claimed settle the plan. `ItemStates` holds the transition tables.

**Documents.** `DocumentLifecycle` is the temporary-document lifecycle (redirects, streaming, validation, consumer,
verified deletion, batches) against an arbitrary network, consumer and file system. `DocumentOutcomes` classifies its
records. `DocumentSlice` is the document worker: one claim per item, the pass loop, the events it appends under the
ledger's guard, the run of a slice, reconciliation, G10 and closing. `DocumentSettling` runs document slices one after
another, with what stays in flight between them.

**Issuer identity.** `IssuerIdentity` proves the quadratic reuse guard equal to a linear condition and says exactly
which disputes no further observation can clear. `IssuerDecisions` proves the decisions built on it sound.
`HoldRule` proves the "what if this batch were recorded" simulation exact, and says exactly when a rerun, also one
after a crash between two commits, ends as the batch would have.

**The filing store.** `FilingStore` models the merge step twice, in memory and in PostgreSQL, proves both against one
relation, and proves that the merged row does not depend on the order of arrival.

**Printed statements.** `Calendar` and `PeriodValidation` (month arithmetic in two forms, and the period check that
compares them), `StatementArithmetic` (rounding intervals and sign detection), `ColumnMatching`, `RowAssembly`,
`FragmentMerging`, `ValueParsing` and `ValuePrinting` (the number parser and what it reads back).

Amounts, coordinates and tolerances are `real`. Hashes are injective. The transport and the ledger's own guards
(worker/backfill_transport, worker/financial_backfill, supabase/migrations/0016_historical_backfill_ledger.sql) enter
as the steps' enabling conditions. Values that exist only to state provenance (which claim time belongs to which lease,
which attempt finished a run) are marked as history where they are declared. Lemmas carry `{:induction false}`: every
induction is written out.

## Where the code and its documentation disagree

The model follows the code.

- A minus sign or parentheses around a number round it to 28 significant digits (unary minus on a Decimal), so a printed
  negative amount is read back exactly if and only if it has at most 28 digits or zeros beyond them
  (`NegativeReadsBackExactly`, with the counterexamples `LongNegativeIsRounded`).
- A dispute over a secId is described as permanent. Only a disagreement of ISIN issuer codes is: a dispute survives
  every further observation if and only if it has one (`PermanentDisputes`, with the counterexample
  `InsufficiencyDisputeReverts`).
- Running the same identity batch again is described as adding nothing. It adds nothing if and only if the released and
  unrecorded observations of the secIds it holds would be held by themselves too (`RerunAddsNothing`, with the
  counterexample `RerunCanRecordAReleasedHold`).
- Holds are committed one by one before the rest of the batch. A run that ends after some of them, run again, ends as if
  it had not been interrupted if and only if what remains of the held secIds is still held without the holds already
  committed (`InterruptedRunIsCompleted`; after the last hold, `RunAfterAllHoldsIsCompleted`); between two holds the
  rerun can record an observation the whole batch holds back (`InterruptedRunCanRecordAHeldBack`).
- "Evidence wins" is stated without exception: no item is failed against an F1 run of its request that succeeded. The
  evidence is read in one transaction and the failure is committed in another, and the ledger's guard looks for a
  success only when the failure names no run. So a failure that names no run never stands against a success
  (`UnnamedFailureNeverBeatsEvidence`), and one that names the claim's own failed run does if and only if another user's
  run of the request succeeded between the two transactions (`FailureAgainstEvidence`, with a whole run of the protocol
  that does it in `FailureCanBeatEvidence`).
- Processing a filing is described as always returning a record, and SIGTERM as ending in a verified deletion. A refused
  temporary root gives a record; otherwise an exception leaves it if and only if it comes before the private directory
  is guarded (an unwinding right after its creation leaves it behind), or the deletion or what follows it is itself
  unwound (which may leave the directory, unverified), or the process is unwound before a deletion that is verified
  (`ProcessFiling`, `UnwindingEscapes`, `UnwoundDeletionEscapes`). A deletion that merely fails turns even an unwinding
  into a record. Where nothing unwinds, a record is always returned (`QuietFilingReturns`, `QuietBatchReturns`).
- F6.1 raises instead of answering for a period that ends on the calendar's last day (`ValidatePeriod`,
  `DerivedStartsAreAccepted`).

## Model

| member | source | states |
|---|---|---|
| ItemStates.FinalStates | worker/financial_backfill/states.py:28-60 | the states only an operator re-queue leaves, computed from the transition table, are exactly these |
| ItemStates.FinalIsSettled | worker/financial_backfill/states.py:28-60 | no final state is in flight, abandoned, waiting or blocked |
| DiscoveryLedger.SuccessRunIsExact | worker/backfill_discovery/discovery.py:130-139 | the evidence query finds a run if and only if some run of the request succeeded or partially succeeded |
| DiscoveryLedger.LatestSuccess | worker/backfill_discovery/discovery.py:130-139 | the run found is the latest successful one of the request; none found means none exists |
| DiscoveryLedger.FindRun | worker/backfill_discovery/f1_cycle.py:52-57 | the run found was begun for that request at that claim's time; none found means none was |
| DiscoveryLedger.Appended | worker/backfill_discovery/accounting.py:34-54 | one more event changes each count (claims, requests, leases since the re-queue) by that event alone |
| DiscoveryRuns.InvStep | worker/backfill_discovery/discovery.py:286-477 | every committed step, a crash included, keeps the protocol's invariant |
| DiscoveryRuns.DecideKeeps | worker/backfill_discovery/discovery.py:130-139 | reading the evidence for a decision, on each of its four occasions, keeps the invariant: what is decided stays sound while others act |
| DiscoveryRuns.PromoteKeeps | worker/backfill_discovery/discovery.py:413-433 | a promotion from evidence keeps the invariant: every response of the dead claim is ingested before it |
| DiscoveryRuns.TerminalClaimKeeps | worker/backfill_discovery/discovery.py:436-477 | G10 keeps the invariant: the terminal claim and the final state are one step |
| DiscoveryRuns.ExpireLeaseKeeps | worker/backfill_transport/recovery.py:41-76 | expiring a dead lease gives its open attempts outcomes, abandons what was in flight under it, and keeps the invariant |
| DiscoveryRuns.RecordEventKeeps | worker/backfill_discovery/discovery.py:326-341 | recording a claim's event, after a response or a refusal, keeps the invariant |
| DiscoveryRuns.AttemptOfRunIsItsSource | worker/backfill_discovery/discovery.py:153-162 | the attempt found behind a finished run, by its claim's time and lease, is the one whose response finished that run |
| DiscoveryRuns.OutcomeNames | worker/backfill_discovery/discovery.py:257-282 | what is decided names only finished runs that support its state; a failure gives way if and only if some run of the request succeeded, to what the latest such run says and naming it; otherwise the event names the given attempt, and the claim's own run exactly when that run failed or supports the success |
| DiscoveryRuns.AnswerDecision | worker/backfill_discovery/discovery.py:99-108 | the state decided for an answer: a block blocks; a success is what F1 made of it; a retryable answer waits exactly below the maximum; a terminal one, a retryable one at the maximum and one F1 could not read fail, unless a run of the request succeeded; and which run and attempt the event names |
| DiscoveryRuns.RefusalNames | worker/backfill_discovery/discovery.py:326-334 | a refusal after the claim waits exactly below the maximum; at it the item fails, naming no run, unless a run of the request succeeded |
| DiscoveryRuns.PromotionNames | worker/backfill_discovery/discovery.py:413-433 | an abandoned item returns to pending if and only if no run of its request succeeded; otherwise it is promoted to what the latest such run says, and names it |
| DiscoveryRuns.FinalNames | worker/backfill_discovery/discovery.py:436-477 | G10 fails an item if and only if no run of its request succeeded, naming the run of its last claim exactly when that run failed; otherwise it records what the latest successful run says, and names it |
| DiscoveryRuns.DecisionKept | worker/backfill_discovery/discovery.py:257-282 | a decision read but not committed stays sound while runs begin and finish and other items move |
| DiscoveryTheorems.InvAlways | worker/backfill_discovery/discovery.py:7-32 | the invariant holds in every state of every run |
| DiscoveryTheorems.InFlightUnderActiveLease | worker/backfill_discovery/discovery.py:16-20 | in every reachable state an item in flight is under a lease that is still active, taken by its own claim |
| DiscoveryTheorems.EndedLeaseIsEmpty | worker/backfill_transport/slice.py:266-308 | a lease released or expired has nothing in flight under it and no attempt without an outcome |
| DiscoveryTheorems.NoResponseIsLost | worker/backfill_discovery/f1_cycle.py:127-138 | once an item is neither in flight nor abandoned, each response under its claims has finished the run begun for that claim, with what F1 made of it |
| DiscoveryTheorems.OneRunPerClaim | worker/backfill_discovery/f1_cycle.py:6-8 | no claim begins two runs or makes two attempts, and no attempt finishes two runs |
| DiscoveryTheorems.FinishedOnce | worker/backfill_discovery/f1_cycle.py:127-138 | a finished run is never changed by any later step of any run |
| DiscoveryTheorems.RequestsAreBounded | worker/backfill_discovery/accounting.py:4-11 | HTTP attempts since the last re-queue are at most the claims followed by a request, so at most the claims, and at most three |
| DiscoveryTheorems.WithinTheArmedMaximum | worker/backfill_discovery/accounting.py:9-11 | while a slice works on an item, its attempts and its claims are within that slice's armed maximum |
| DiscoveryTheorems.TerminalClaimsCommitFinal | worker/backfill_discovery/discovery.py:462-477 | only a terminal claim makes claims exceed requests, by one, and only together with the final state |
| DiscoveryTheorems.FailureIsDecidedOnEvidence | worker/backfill_discovery/discovery.py:257-282 | on every finalising path a failure is decided only when no F1 run of the request has succeeded |
| DiscoveryTheorems.UnnamedFailureNeverBeatsEvidence | supabase/migrations/0016_historical_backfill_ledger.sql:1029-1050 | a failure that names no run is committed only while no F1 run of the request has succeeded; logs are only appended to |
| DiscoveryTheorems.FailureAgainstEvidence | supabase/migrations/0016_historical_backfill_ledger.sql:1026-1050 | a committed failure stands against a success if and only if another user's run of the request succeeded between its decision and its commit, and then it names the claim's own failed run |
| DiscoveryTheorems.FailureCanBeatEvidence | supabase/migrations/0016_historical_backfill_ledger.sql:1026-1035 | a run of the protocol, from the empty ledger, that commits a failure against a successful run |
| DiscoveryTheorems.NamesAreEvidence | worker/backfill_discovery/discovery.py:272-275 | no event ever names a running run; a success names a successful run of its request, and no attempt but the one that finished it |
| DiscoveryTheorems.SegmentCounts | worker/backfill_discovery/discovery.py:353-366 | while the operator leaves an item alone, each claim counts, and a settled item stays settled |
| DiscoveryTheorems.EveryItemSettles | worker/backfill_discovery/accounting.py:9-11 | an item served by three slices and one more, whatever crashes between, is final or blocked |
| DiscoveryTheorems.ExpiryRecoversTheSpool | worker/backfill_transport/recovery.py:41-76 | an expiry changes no recorded outcome, recovers every spooled one, closes every other open attempt as unrecorded |
| DiscoverySlices.DiscoverySlice.Commit | worker/backfill_discovery/discovery.py:65-77 | a transaction that returns is the protocol's next step; one that raises was kept whole or not at all, and none raises without a fault |
| DiscoverySlices.DiscoverySlice.Conclude | worker/backfill_discovery/discovery.py:261-275 | the decision read is the protocol's: the given state, or, if that is a failure and some run of the request succeeded, what the latest such run says; committing it is the next step |
| DiscoverySlices.DiscoverySlice.FinalOrRetry | worker/backfill_discovery/discovery.py:257-282 | the state recorded is the given one, or, if that is a failure and some run of the request succeeded, what the latest such run says; it fails only if a commit raises |
| DiscoverySlices.DiscoverySlice.Refuse | worker/backfill_discovery/discovery.py:326-334 | a refusal after the claim leaves the item out of flight, waiting exactly below the maximum and failed at it unless the evidence says better, and stops the slice; an exception only from a raising commit |
| DiscoverySlices.DiscoverySlice.SendRequest | worker/backfill_transport/requester.py:74-174 | one attempt: an ingested answer, or a DurabilityStop or exception with the item still in flight; without a raising commit exactly the replies that cannot be kept durable stop it, and the attempt says what was lost |
| DiscoverySlices.DiscoverySlice.AnswerEvent | worker/backfill_discovery/discovery.py:311-341 | the state recorded for an ingested answer, by its class, F1's status of it, the claims and the evidence |
| DiscoverySlices.DiscoverySlice.RecordAnswer | worker/backfill_discovery/discovery.py:311-341 | recorded or stopped, the item is in the state that the answer's class, F1's status of it, the claims against the maximum and the evidence determine: waiting exactly for a retryable answer below the maximum, failed exactly for a terminal one, a retryable one at the maximum or one F1 could not read, without a successful run; a block or open circuit is raised after the event, exactly for the answers that raise it |
| DiscoverySlices.DiscoverySlice.DiscoverOne | worker/backfill_discovery/discovery.py:286-351 | one claim per item and slice; refused at the claim it changes nothing, otherwise a waiting item ends as its reply says, in the state the reply, the claims and the evidence determine, unless a commit raises; recorded or stopped it is out of flight with one more claim, after a DurabilityStop in flight under the lease |
| DiscoverySlices.DiscoverySlice.Eligible | worker/backfill_discovery/discovery.py:239-246 | exactly the waiting plan items below the maximum that this slice has not tried |
| DiscoverySlices.DiscoverySlice.RunSlice | worker/backfill_discovery/discovery.py:353-366 | terminates; it raises only if a commit does, stops only as some reply says or by a DurabilityStop after a fault, and counts to its bound; otherwise every plan item was claimed in this slice or is final or blocked |
| DiscoverySlices.DiscoverySlice.DrainedServes | worker/backfill_discovery/discovery.py:353-366 | what a drained slice leaves is what the settling theorem asks of a slice |
| DiscoverySlices.DiscoverySlice.Open | worker/backfill_transport/slice.py:111-145 | every dead lease is expired, spool first, before this slice's own lease is opened; it fails only if a commit raises |
| DiscoverySlices.DiscoverySlice.Reconcile | worker/backfill_discovery/discovery.py:398-410 | an abandoned item below the maximum ends as its evidence says, or pending without any; one abandoned or waiting at the maximum fails, unless the evidence says better; every other item is untouched; so none stays abandoned and none waits at the maximum; it fails only if a commit raises |
| DiscoverySlices.DiscoverySlice.ReconcileAbandoned | worker/backfill_discovery/discovery.py:413-433 | the item is promoted to what the latest successful run of its request says, or to pending if and only if there is none; no other item and no other request's run changes; it fails only if a commit raises |
| DiscoverySlices.DiscoverySlice.Terminalise | worker/backfill_discovery/discovery.py:436-477 | an item is finalised exactly when it waits at the maximum, and fails exactly when no run of its request succeeded, otherwise it records what the latest such run says; it fails only if a commit raises |
| DiscoverySlices.DiscoverySlice.Enter | worker/backfill_discovery/discovery.py:206-228 | an entered slice finds every item settled or waiting below the maximum; it is not entered only if a commit raises |
| DiscoverySlices.DiscoverySlice.Close | worker/backfill_discovery/discovery.py:370-393 | the lease is released exactly when nothing under it is in flight, every attempt has an outcome, and no DurabilityStop, exception or unreadable ledger ended the slice; nothing else changes |
| DiscoverySlices.DiscoverySlice.Work | worker/backfill_discovery/discovery.py:206-393 | a whole slice without a raising commit or a stopping reply drains its plan, serves every item of it and releases its lease |
| DiscoverySettling.RunSlices | worker/backfill_discovery/accounting.py:9-11 | slices one after another, whatever faults, stops, refusals and crashes they meet: once more than three of them have run clean, every item of the plan is final or blocked |
| DiscoverySlices.ClaimIsIngested | worker/backfill_discovery/discovery.py:142-150 | the run and attempt looked up for a claim are that claim's own, so finishing the one from the other ingests its response |
| DocumentLifecycle.OpenFollowingRedirects | worker/document_retrieval.py:314-331 | at most three requests; what is opened is no redirect, a refused redirect says why, and it raises or unwinds exactly as the network's answers do |
| DocumentLifecycle.DownloadOne | worker/document_retrieval.py:334-388 | a download is the whole unbroken stream of a 200 response within the size limit; each error has its category; it unwinds exactly as the network's answers do |
| DocumentLifecycle.RetrieveInto | worker/document_retrieval.py:408-469 | a document reaches the next stage exactly when some candidate's download is acceptable before anything raises or unwinds, in the network or anywhere else in the retrieval; otherwise the record is exactly that of an absent or malformed path, of the last download's error (its category and status), of a size that disagrees, or of the first rule the document violates; at most three requests per candidate URL |
| DocumentLifecycle.LastAnswerDecides | worker/document_retrieval.py:432-444 | the retrieval ends with the download of the deciding answer: the only candidate's after at most two redirects to the CDN, or the second candidate's when the first answered 403 or 404; what each status, exception, redirect and chunk makes of that download |
| DocumentLifecycle.ProcessFiling | worker/document_retrieval.py:475-535 | it is left by an exception if and only if that comes before the directory is guarded, or unwinds the deletion, or unwinds what precedes a verified deletion; after a verified deletion the record is exactly what the retrieval and the consumer came to; every returned record obeys the lifecycle's laws; cleanup has failed if and only if the deletion was not verified; the root changes exactly when the directory is left |
| DocumentLifecycle.QuietFilingReturns | worker/document_retrieval.py:475-535 | whatever the network, the retrieval, the hashes, the consumer and the deletion do short of unwinding the process, a record is returned once the directory is made |
| DocumentLifecycle.UnwindingEscapes | worker/document_retrieval.py:475-535 | a filing whose first answer unwinds is left by the exception exactly when its deletion is verified or unwound itself |
| DocumentLifecycle.UnwoundDeletionEscapes | worker/document_retrieval.py:233-242 | a filing whose deletion is unwound, or that is unwound right after mkdtemp, is left by the exception whatever the network did, with the deletion unverified and its directory left as it then was |
| DocumentLifecycle.ProcessBatch | worker/document_retrieval.py:538-557 | a batch is returned if and only if the root is valid and no exception leaves a filing or comes between, before or after them (the pauses, the listings), and then has one record per filing, each what the network said to that filing came to; one reported ok leaves the temporary root as it was; a leftover implies a failed cleanup; a changed root some filing's directory left behind |
| DocumentLifecycle.QuietBatchReturns | worker/document_retrieval.py:538-557 | where nothing unwinds and every directory is made, no exception leaves any batch of filings |
| DocumentOutcomes.DispositionIsSound | worker/backfill_documents/outcomes.py:42-67 | what each disposition means of a lawful record: persist if and only if consumed, validated and verified gone; cleanup if and only if the deletion failed; retryable if and only if one of the listed transient outcomes and categories, or an unexpected status 429; terminal for every other retrieval failure the ledger accepts |
| DocumentOutcomes.AnswerDisposes | worker/backfill_documents/outcomes.py:42-67 | the disposition from the network's deciding answer: an exception, 5xx, 429, a broken or unhashable stream and a body that is cut, mismatched or empty are retryable; 403, 404, any other status, a refused redirect, too many bytes and what is no PDF are terminal |
| DocumentOutcomes.NoConsumerNeverPersists | worker/backfill_documents/outcomes.py:52-54 | a success without a consumer is a cleanup stop |
| DocumentOutcomes.RetrieveOnce | worker/backfill_documents/worker.py:409-418 | one pass: no disposition exactly when an exception leaves the filing or the batch around it; persisted exactly when consumed, acceptable and verified gone, and otherwise disposed of as the network's deciding answer says; at most six requests; a changed root stops the stage or is left by such an exception |
| DocumentSlices.AcceptedIsLegal | supabase/migrations/0016_historical_backfill_ledger.sql:915-1105 | events the guard accepts extend a legal path of the transition table, with the retrieval outcome, consumer status and block each state claims |
| DocumentSlices.LedgerStays | supabase/migrations/0016_historical_backfill_ledger.sql:1002-1017 | events accepted under a lease leave every log legal and grown, and nothing in flight but under that lease |
| DocumentSlices.DocumentSlice.Commit | worker/backfill_documents/worker.py:297-323 | a transaction's events are all accepted by the guard and appended, or nothing is; it fails only by a refusal or a raising commit |
| DocumentSlices.AcceptedFromRequesting | supabase/migrations/0016_historical_backfill_ledger.sql:1002-1105 | from requesting, the one- and two-event transactions the worker uses are accepted |
| DocumentSlices.DocumentSlice.StopLocally | worker/backfill_documents/worker.py:423-442 | a failed deletion ends in cleanup_failed, a leftover in failed, through exactly the events that say whether the document reached its consumer, all accepted by the guard, and the stage stops |
| DocumentSlices.DocumentSlice.Persist | worker/backfill_documents/worker.py:450-470 | persisted with the pass's record, or, only when the persistence or a commit failed, retry_wait below the maximum and failed at it; in flight only after an exception |
| DocumentSlices.DocumentSlice.PersistOrRecord | worker/backfill_documents/worker.py:454-465 | a persistence that failed is recorded by itself, and one that was kept although its commit raised is not recorded again |
| DocumentSlices.DocumentSlice.RecordFailure | worker/backfill_documents/worker.py:481-517 | a retrieval failure ends in the state its kind and claims say and with the stop of the pass, or leads to another pass only when retryable, unstopped and not the last |
| DocumentSlices.DocumentSlice.AfterPass | worker/backfill_documents/worker.py:414-517 | the item's state and the exit of a pass are determined: first what may remain on disk, then a block (blocked, and the stop it raises), then the record, the refusals, the claims and the place among the passes, a failed persistence apart; another pass exactly for retryable, unstopped and unrefused ones before the last; the claim count is unchanged |
| DocumentSlices.DocumentSlice.StartPass | worker/backfill_documents/worker.py:386-410 | a pass begins if and only if the space, HB-2, the slice's cap and the passes left allow it; otherwise the item waits |
| DocumentSlices.DocumentSlice.Passes | worker/backfill_documents/worker.py:386-517 | at most attempts_per_document passes (one when it is zero), every one before the last retryable, and the last one determines the final state and the exit, waiting if it was not allowed to begin; only a DurabilityStop or an unexpected exception leaves it in flight |
| DocumentSlices.DocumentSlice.ProcessOne | worker/backfill_documents/worker.py:352-517 | one claim per item and slice; an eligible item is claimed unless the cap, the space, HB-2, an earlier stop or the maximum refuses it first, and then nothing changes; every normal return and handled stop ends outside requesting and processing |
| DocumentSlices.DocumentSlice.NextItem | worker/backfill_documents/worker.py:274-293 | the item returned waits below the maximum, untried and current; only items at the maximum are skipped; none returned means none is left |
| DocumentSlices.DocumentSlice.RunSlice | worker/backfill_documents/worker.py:519-536 | terminates; each item tried was claimed once and is out of flight, every other is untouched; a drained slice leaves no candidate, and skipped only for cause; it raises only by a fault or an unexpected pass, and stops only at its cap or by what refuses or stops a document |
| DocumentSlices.DocumentSlice.Reconcile | worker/backfill_documents/worker.py:572-596 | an abandoned document ends persisted if an F5 run of it is, otherwise pending, or failed at the maximum without an open attempt; one waiting at the maximum without an open attempt ends persisted if an F5 run of it is, otherwise failed; every other item is untouched; nothing comes in flight; unless a commit raises |
| DocumentSlices.DocumentSlice.Promote | worker/backfill_documents/worker.py:577-590 | an abandoned document becomes persisted if an F5 run of it is and pending otherwise, with its claims unchanged |
| DocumentSlices.DocumentSlice.Terminalise | worker/backfill_documents/worker.py:599-632 | an item waiting at the maximum becomes persisted if an F5 run exists and failed otherwise, through accepted events, in one transaction |
| DocumentSlices.DocumentSlice.Close | worker/backfill_documents/worker.py:540-567 | the lease is released exactly when nothing claimed under it is in flight and nothing prevents it; a release that raises is kept or not, with nothing in flight under the lease |
| DocumentSettling.RunOne | worker/backfill_documents/worker.py:6-32 | one slice from its opening to its close or crash: refused before the expiry of dead leases it changes nothing; otherwise what is in flight afterwards is under the lease left active, what rested is untouched, a whole slice recovers what a dead one left by the evidence, and a clean slice claims every waiting document of the plan or leaves it at rest |
| DocumentSettling.RunSlices | worker/backfill_documents/worker.py:30-32 | any sequence of slices, whatever they meet, keeps that; once more clean slices than a document may be claimed have run, every document of the plan is at rest |
| IssuerIdentity.ReuseGuardIsLinear | worker/issuer_identity.py:170-208 | with two or more claimants the pairwise guard passes if and only if one ISIN issuer code is seen and everyone has a code, or everyone has one and the same name |
| IssuerIdentity.SoleClaimantGuard | worker/issuer_identity.py:187-208 | the guard's condition for a single claimant, compared with itself |
| IssuerIdentity.IssuerCodeIs | worker/issuer_identity.py:122-126 | an ISIN carries an issuer code if and only if, blanks around it apart, it is LK, four digits, a letter and five digits in either case, and the code is those four digits |
| IssuerIdentity.NormalisedNameIs | worker/issuer_identity.py:129-131 | a normalised name is the name's words (longest runs of letters and digits) in capitals with one space between, and none without a word |
| IssuerIdentity.PairFailureIs | worker/issuer_identity.py:176-184 | which failure two claimants have, from their observations alone: codes differ if and only if both carry a code and their codes together are not one; names differ if and only if not both carry a code, both carry a name and the names together are not one; evidence is insufficient if and only if neither can be compared and they are different securities |
| IssuerIdentity.DisputesAsObserved | worker/issuer_identity.py:187-208 | a secId is disputed if and only if some pair of its claimants has such a failure, and its dispute is exactly those failures |
| IssuerIdentity.IsinDisagreementIsPermanent | worker/issuer_identity.py:33-35 | an ISIN code disagreement survives every further observation |
| IssuerIdentity.PermanentDisputes | worker/issuer_identity.py:33-35 | a dispute survives every further observation if and only if it has an ISIN code disagreement |
| IssuerIdentity.InsufficiencyDisputeReverts | worker/issuer_identity.py:33-35 | a dispute for want of evidence that a later observation clears |
| IssuerIdentity.DisputedSecIds | worker/issuer_identity.py:187-208 | the nested loops compute exactly the disputes of the history: every failing ordered pair with the failure its observations show, and no other |
| IssuerIdentity.ObservationOrderIsIrrelevant | worker/issuer_identity.py:187-208 | the disputes do not depend on the order of observations |
| IssuerDecisions.DecideSecurity | worker/issuer_identity.py:157-167 | one secId is adopted if and only if it is the only one observed |
| IssuerDecisions.DecideSecurities | worker/issuer_identity.py:211-228 | each security is decided as the disputes of the whole history say |
| IssuerDecisions.DecisionIsUnique | worker/issuer_identity.py:211-228 | a history and any reordering of its observations decide each security the same, in one way only |
| IssuerDecisions.EvidencedSecuritiesAreOneIssuer | worker/issuer_identity.py:211-228 | any two evidenced securities that share a secId pass the same-issuer check |
| IssuerDecisions.ClaimantsOfDisputeConflict | worker/issuer_identity.py:211-228 | every claimant of a disputed secId is a conflict and names it |
| IssuerDecisions.EvidencedExactly | worker/issuer_identity.py:211-228 | a security is evidenced with a secId if and only if it observed that one alone and all its claimants agree pairwise |
| IssuerDecisions.DecideFiling | worker/issuer_identity.py:252-289 | a filing is evidenced exactly when path and listing name one secId, undisputed and with an issuer, and no link conflicts; each reason is given exactly when it holds |
| IssuerDecisions.EvidencedFilingIsSound | worker/issuer_identity.py:252-289 | a filing decided as evidenced has an undisputed secId that is the path's and every listed security's, and those securities pass the same-issuer check |
| HoldRule.GroupBySymbol | worker/backfill_discovery/identity.py:54-62 | the grouping loop is the batch's history by symbol |
| HoldRule.HeldSecIds | worker/backfill_discovery/identity.py:65-81 | a secId is held if and only if no pair of its claimants fails before the batch, some pair fails with it, and every pair that fails lacks a comparable code and a comparable name, as observed |
| HoldRule.SplitBatch | worker/backfill_discovery/identity.py:84-93 | the batch is split, in order, by whether a held secId is claimed: exactly those observations are held back |
| HoldRule.HoldIsExact | worker/backfill_discovery/identity.py:65-93 | the disputes after recording the kept part are the disputes after recording everything, minus the held secIds |
| HoldRule.NoNewInsufficientDispute | worker/backfill_discovery/identity.py:65-93 | recording the kept part never creates a dispute made only of missing evidence |
| HoldRule.RowsGainNoInsufficientDispute | worker/backfill_discovery/identity.py:120-145 | a dispute of the stored rows after a batch was there before it, or rests on more than missing evidence |
| HoldRule.RerunHoldsTheSame | worker/backfill_discovery/identity.py:65-93 | the same batch against the kept part holds exactly the same secIds |
| HoldRule.IdentityStore.RecordBatch | worker/backfill_discovery/identity.py:120-145 | the holds are committed one by one and then the rows; what any number of those commits leaves, given the old rows and holds and the batch |
| HoldRule.RerunAddsNothing | worker/backfill_discovery/identity.py:120-124 | recording the same batch twice is recording it once if and only if its released and unrecorded observations would be held by themselves too |
| HoldRule.InterruptedRunIsCompleted | worker/backfill_discovery/identity.py:134-145 | a run that ended after some of its holds, run again, ends as if uninterrupted if and only if the rest of the held secIds is still held without them |
| HoldRule.RunAfterAllHoldsIsCompleted | worker/backfill_discovery/identity.py:134-145 | after the last hold that condition is the rerun's own |
| HoldRule.RerunCanRecordAReleasedHold | worker/backfill_discovery/identity.py:120-124 | from the empty store, a batch, a release and a batch lead to a rerun that records the released hold |
| HoldRule.InterruptedRunCanRecordAHeldBack | worker/backfill_discovery/identity.py:134-145 | from the empty store, a run ended between two holds leads to a rerun that records what the whole batch holds back |
| FilingStore.SplitUndoesSourceKey | worker/report_discovery.py:242-248 | a source key splits back into its parts if and only if they carry no separator and the symbol is not empty |
| FilingStore.GoodKeyRoundTrip | worker/report_discovery.py:242-248 | a key that splits is its source's own key |
| FilingStore.PrecedenceIs | worker/report_discovery.py:228-255 | the listing endpoint precedes the feed's and that any other; within an endpoint annual, quarterly, other, web_link, the feed's bucket, then any other; unlisted names and the query symbols by Python's string order |
| FilingStore.PrecedesIsTotal | worker/report_discovery.py:251-255 | the precedence orders any two sources, and strictly unless they are equal |
| FilingStore.PrecedesIsTransitive | worker/report_discovery.py:251-255 | the precedence is transitive |
| FilingStore.NormalizeFiling | worker/report_discovery.py:270-326 | each column comes from the first source in precedence that provides it, exactly the disagreeing others are reported, and the row lists exactly its sources' endpoints, buckets (the feed's apart) and query symbols |
| FilingStore.NormalRowIsUnique | worker/report_discovery.py:270-326 | the current entries determine the normalised row |
| FilingStore.RowDependsOnHashesOnly | worker/report_discovery.py:270-326 | the normalised row depends on each source's hashed metadata alone |
| FilingStore.InMemoryFilingStore.ApplyObservation | worker/report_discovery.py:372-398 | one observation changes its own filing's row and adds its observation if absent; every looked-up version exists, and the differences reported are exactly those of the looked-up versions |
| FilingStore.PostgresFilingStore.CurrentItems | worker/report_filings_store.py:86-98 | the stored entry of every other source's current version is found |
| FilingStore.PostgresFilingStore.Apply | worker/report_filings_store.py:74-131 | insert unless unchanged does, and reports, what the in-memory store does |
| FilingStore.DifferencesDependOnHashesOnly | worker/report_discovery.py:270-326 | the differences reported depend on each source's hashed metadata alone |
| FilingStore.ReportIsUnique | worker/report_filings_store.py:74-131 | the report of an observation is determined: the two stores report the same differences |
| FilingStore.AppliedKeepsValid | worker/report_discovery.py:372-398 | after any observation every current version is stored and every row is normal |
| FilingStore.AppliedIsUnique | worker/report_filings_store.py:74-131 | the state after an observation is determined: the two stores agree, observation keys included |
| FilingStore.UnchangedIsStored | worker/report_discovery.py:258-267 | an observation classified as unchanged already has its row, so skipping the insert loses nothing |
| FilingStore.HistoriesAreValid | worker/report_discovery.py:372-398 | after any sequence of observations every current version is stored and is each source's last metadata |
| FilingStore.OrderNeverMatters | worker/report_discovery.py:270-398 | two sequences with the same last metadata per source leave equal versions and equal normalised rows |
| Calendar.NextDayIsOneDayLater | worker/report_classification.py:1041 | the day after a date is one day later, over month, year and leap-year ends, and missing only after the last date |
| Calendar.CheckedStartIsFirstOfMonth | worker/financial_validation.py:331-334 | F6.1's start of a period that ends at a month end is the first of the right month, and when it exists |
| Calendar.DerivedStartIsFirstOfMonth | worker/report_classification.py:219-222 | F3's start is the first of the right month, and when it exists |
| Calendar.CalendarsAgree | worker/report_classification.py:215-222 | on month ends the two forms agree wherever both exist, and exactly where only one does |
| Calendar.DerivedStartsAreAccepted | worker/statement_extraction.py:896-900 | a start derived by F3 or F4 is the one F6.1 expects, except on the calendar's last day |
| Calendar.MonthRangesAreAccepted | worker/statement_extraction.py:559-576 | the start and length of a month-range header, also across a year end, are consistent for F6.1 |
| PeriodValidation.ValidatePeriod | worker/financial_validation.py:388-439 | it raises exactly when the month arithmetic leaves the calendar, is valid exactly for acceptable periods, and its start-date reasons mean what they say |
| PeriodValidation.DerivedDurationIsAcceptable | worker/financial_validation.py:406-420 | a duration column whose start F3 or F4 derived is a valid period |
| PeriodValidation.MonthRangeColumnIsAcceptable | worker/statement_extraction.py:559-576 | a month-range column is a valid period |
| StatementArithmetic.PassMeansExactAmountsExist | worker/financial_validation.py:648-665 | a check passes if and only if exact amounts within the printed half-units satisfy the relation, in the form the variant names |
| StatementArithmetic.EitherMeansSecondIsNegligible | worker/financial_validation.py:648-665 | a pass in both forms means the second term is at most the tolerance |
| StatementArithmetic.EvaluationIs | worker/financial_validation.py:612-665 | a relation is not applicable exactly when its total is not reported in the column; insufficient, with the reason of every concept without one usable value there, or when the currencies differ; and otherwise decided on the concepts' first usable rows: passed if and only if the total is the sum, or where allowed the difference, within the three half units |
| StatementArithmetic.AgreementIsACommonAmount | worker/financial_validation.py:505-525 | two values are comparable if and only if both are normalised with one currency and value type, and then agree if and only if one exact amount could be printed as both; the comparison is symmetric |
| StatementArithmetic.RelationNamesItsSecondTerm | worker/financial_validation.py:717-745 | a relation found for a row names that row as its second term |
| StatementArithmetic.SignContributionFitsItsRelation | worker/financial_validation.py:717-761 | a contribution reported through a relation fits it within the tolerance, and is the printed value or its negation |
| StatementArithmetic.SignOfSays | worker/financial_validation.py:717-761 | income contributes as printed; an expense as its relation's first decision in the same column says, as printed or with its sign turned; without one a printed negative contributes as printed, zero contributes zero, and nothing else has a contribution |
| StatementArithmetic.DetectSigns | worker/financial_validation.py:717-761 | one result per usable row in key order, each what the row's natural sign, its value and its relation say, and every contribution through a relation fits it |
| ColumnMatching.FittingPairs | worker/statement_extraction.py:774-775 | exactly the pairs whose right edges are within the tolerance or whose anchor is centred in the column, in order of distance, column and anchor |
| ColumnMatching.MatchColumns | worker/statement_extraction.py:773-788 | one-to-one, every match clear of its free rivals by the margin, and stable: a fitting pair is skipped only for an ambiguous or note column or a side matched at least as close; ambiguous columns really are |
| RowAssembly.ValuesGroup | worker/statement_extraction.py:1107-1117 | a row of values takes its line and exactly the lines that go on with its label, contiguous, close, up to the wrap limit: no line that goes on is left |
| RowAssembly.LabelGroup | worker/statement_extraction.py:1118-1144 | a label takes exactly the lines that continue it, values printed between them included, up to the wrap limit or a continuation with values: no line that continues is left |
| RowAssembly.AssembleRows | worker/statement_extraction.py:1099-1148 | an order-preserving partition of exactly the lines with a label or values, each group whole, with each value row under the latest earlier section |
| ValueParsing.ParsedSignIsPrintedSign | worker/financial_values.py:87-121 | an amount or a percentage is negative exactly when it is printed with a minus or in parentheses, zero apart |
| ValueParsing.ParserNeverInconsistent | worker/financial_validation.py:444-466 | no string's parse is an inconsistent input to F6.1, and its numbers are exactly the amounts |
| ValueParsing.DashIsNil | worker/financial_values.py:87-92 | a dash is nil in both stages, never a number |
| ValueParsing.NegateIsNegative | worker/financial_values.py:101-108 | negation with rounding keeps a non-zero amount negative |
| ValueParsing.NegateRounds | worker/financial_values.py:101-108 | negation keeps an amount of up to 28 digits and rounds a longer one to the nearest with 28, halves to even |
| ValueParsing.CellsWithoutAmount | worker/financial_values.py:87-96 | a blank cell, a spreadsheet error and a date have no amount, each with its class |
| ValuePrinting.PrintCoreParses | worker/financial_values.py:43-76 | every printed magnitude, grouped or not, with any decimals, is one number the pattern accepts, with the same value |
| ValuePrinting.ParseOfPrint | worker/financial_values.py:87-121 | every printed amount, in every style and any surrounding blanks, parses to its value, decimals and class, up to the parser's negation |
| ValuePrinting.ParseOfPercent | worker/financial_values.py:109-115 | every printed percentage, with a minus, parentheses or neither and blanks anywhere between, parses to its value, negated exactly when printed negative; with an unbalanced parenthesis it is unresolved |
| ValuePrinting.NegativeReadsBackExactly | worker/financial_values.py:101-108 | a printed negative amount is read back exactly if and only if it fits 28 digits or has zeros beyond them |
| ValuePrinting.LongNegativeIsRounded | worker/financial_values.py:101-108 | a family of longer negative amounts that are not read back, although their positive forms are |
| FragmentMerging.MergeNumericFragments | worker/financial_values.py:128-166 | the output is the line from left to right, equal edges in their order, cut into runs, each the longest that joins and reads as a value, merged to its text and bounding box |
| FragmentMerging.MergingConserves | worker/financial_values.py:128-166 | any such cut keeps the line's text and fragment total |
| FragmentMerging.CutIsUnique | worker/financial_values.py:151-157 | the longest value at a place is unique, so the rules determine the cut |

## Left out

- DiscoverySlices.DiscoverySlice.RunSlice: describes a slice alone; operators and other F1 users act between its commits in the protocol's theorems, not in this contract.
- DocumentSlices.AcceptedIsLegal: of the ledger's guard on documents, the conditions that named rows belong to the item, that a reason is given, that 'persisted' names its F5 run and that the record and that run hash the same document are not modelled; the worker fills them in for every event.
- FilingStore.OrderNeverMatters: the companies table is fixed; the code reads it at each observation, so a row's company and resolution are those of the table at the filing's last observation. Timestamp parsing is an uninterpreted function of the column and the value.
- SQL text, sessions, locks and PostgreSQL grants: a committed transaction is one atomic step, and one active lease at a time follows from the expiry that precedes opening.
- DiscoverySettling.RunSlices: other F1 users and operators do not act inside these slices; with them, DiscoveryTheorems.EveryItemSettles holds of any run, given that slices serve the item.
- Reads that raise: only commits do. The worker treats a failed read as any other exception.
- The order in which a slice takes its eligible items (feed months first, then symbols; ascending upload date).
- Budgets, throttling, the circuit breaker's counter, quiet windows and arming decisions: each is an arbitrary refusal or stop.
- The preflight, tool and temporary-root checks, the orphan sweep, SIGTERM installation and document planning.
- The feed-window size anomaly recorded after a large response, and all texts of reasons and details.
- Network clients, command lines, capture and investigation scripts: plumbing.
- Heading, label, concept and header patterns (find_statement_headings, parse_statement_header, the section and label rules of assemble_rows): uninterpreted predicates.
- The attribution pairs of check A4 (_evaluate_pairs): its results enter sign detection as given.
- normalize_value: multiplication by a power of ten under a context that traps; exact in this model, so only an easy claim remains.
- Unicode beyond ASCII in digits, case folding and name normalisation (NFKC).
- Hash strength: hashes are injective on the hashed fields.
- apply_resolutions: it simulates each held observation alone and records them together, so no joint statement follows.
- observations_new as an exact run counter: a change back to an earlier version adds no observation row.
- Reconciliation, mapping, promotion, readiness, coverage and anomaly reports: easier claims.
