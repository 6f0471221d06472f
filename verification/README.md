# Verification of the ACME registration authority

A Dafny model of the hard parts of an ACME front end to Active Directory
Certificate Services, with proofs about every run of it. `dafny verify
dfyconfig.toml` checks the whole project.

| area | modules |
|---|---|
| Orders and leases | `OrderTable` |
| The issuance protocol | `IssuanceProtocol`, `IssuanceRegistry`, `IssuanceInvariant`, `IssuanceLeases`, `IssuanceLeaseSteps`, `IssuanceAccounts`, `IssuanceEvidence`, `IssuancePending`, `IssuanceCertificates`, `IssuanceCalls`, `IssuanceTheorems`, `IssuanceNecessity` |
| Code around the CA call | `EnrollmentLeg`, `Finalize` |
| Denial coalescing | `Coalescer`, `CoalescerRows`, `CoalescerGrowth`, `DenialCoalescing` |
| Key identity | `Octets`, `Base64url`, `Base64urlText`, `Jwk`, `JwkCanonical`, `JwkSpellings`, `ThumbprintText`, `Der`, `AccountMigration` |
| CRL evidence | `CrlGate`, `Timestamps`, `CrlWatermark`, `IssuerRecovery` |
| Graph and rates | `HistoryVerdict`, `TokenBuckets`, `KeyChangeLimit` |

## The issuance protocol

`IssuanceProtocol` is a transition system. One action is one SQLite transaction,
one lock or registry operation, or one decision of the CA. Finalize handlers and
their queued workers, client cancellations, reclaims, expiry sweeps, revocations,
deactivations, key changes, the CA officer and process restarts interleave in any
order. A run is a sequence of enabled actions from an empty store; the theorems
quantify over all of them.

A handler and its worker are apart: the handler holds the mark in the registry and
awaits, the worker holds the account lock and calls the CA. A cancellation reaches
the handler's await. If the gate absorbs it the handler awaits again; if it does not,
the handler leaves, its mark goes, and the worker carries on.

A `Regime` is any combination of seven safeguards. Each only forbids runs:

| safeguard | what it forbids |
|---|---|
| `registry` | reclaiming an order while it is marked |
| `absorbs` | a cancelled handler that leaves the gate before its worker is done |
| `fenced` | a CA call under a lapsed lease, and a reclaim whose statement has ceased to be true |
| `truthful` | a statement of an operator who overlooks an undecided request |
| `answered` | losing the answer to a request that the CA accepted |
| `markersWritten` | a failing write of the pending marker |
| `uninterrupted` | a restart between an acceptance and its marker |

`Safe` says which combinations are enough: with a truthful operator either `fenced`
or both `registry` and `absorbs`; otherwise `registry`, `absorbs` and the last three
together. `SafeguardsAreExact` proves for all 128 combinations that single issuance
holds if and only if the combination is safe; every other one has a run that issues
twice. `AsShipped` is the code: `registry`, `absorbs` and `truthful`. Likewise
`AbsorptionIsExact`: the mark covers every worker, and every result reaches its
handler, if and only if the gate absorbs cancellations.

What the model assumes about the world:

- The operator's statement is true when the reclaim checks it, after the registry
  check. The route takes it as a request parameter, made earlier, and does not yield
  from the registry check to the write, so it must still hold at the write. The read
  of the order and the registry check are one step for the same reason, and marks
  change only on the event loop.
- The CA decides at submission or later, and a decided request stays decided.
- Every store write of a finalize call can fail, and so can the off-host emission of
  the emergency event, or there is no hook. A transaction is all or nothing. Reads are
  taken to succeed. Lines in the RA's own log file are not counted as evidence.
- The certificate parses once it was issued.
- Route checks made before the mark only forbid runs, so they are not steps.
- Reconciling an order with its served certificate, and a reclaim that does so,
  are single steps with any generation.

`Finalize` holds the same code as objects and methods. Its contracts give the tables
after each branch, whichever of the branch's writes commit.
`SubmissionTakesProtocolSteps` and `TurningBackTakesProtocolSteps` say that a run of
the protocol leaves the same tables, from the CA call or from the checks before it to
the release of the account; `RejectionTakesProtocolSteps` and
`RecordingTakesProtocolSteps` do so for the handler, from the verifiers' verdict on.

## Key identity

`Base64url` proves that the unpadded encoding is `Faithful`: it reads back, only the
empty string is empty, and neither padding nor a quotation mark occurs; `Base64urlText`
ties it to the alphabet and the digits of RFC 4648. `Jwk`, `JwkCanonical`,
`JwkSpellings`, `ThumbprintText` and `AccountMigration` are proved for every faithful
encoding. `ThumbprintText` compares the hashed text with an independent rendering of
the JSON object that RFC 7638 asks for.

## Where the code and its documentation differ

- `_quarantine_and_fail` says that the fallback audit row keeps a rejected
  certificate from being silent, but that row names the order and not the ReqID.
  A rejected certificate can be found if and only if its quarantine commits
  (`RejectedIsNamedIffQuarantined`; `UnnamedIsReachable` is a run that loses it).
- `_quarantine_transport_orphan` says that the finding survives a store failure and
  that the order ends terminal either way. Its fallback writes to the store that just
  failed; if that row fails too, the call raises, nothing names the certificate and
  the order is not closed. An orphan is evidenced if and only if one of the two rows
  commits (`OrphanIsEvidencedIffRecorded`, `BareOrphanIsEvidencedIffAudited`;
  `UnrecordedIsReachable` is a run that loses it).
- `submit_csr` says that once the CA has issued, the ReqID is recorded before the
  first call that can fail. The deadline check between parsing the disposition
  page and recording the ReqID can fail first; that is exactly when the ReqID is
  lost, of an issued request and of a pending one (`EnrollmentLeg.SubmitCsr`).
- The row markers of the coalescer are said to tell a first window from a dropped
  one. Three things hide a repeat. The index is dropped at shutdown and the next
  process starts without evictions. A row that follows an archived row while the
  archived row's window is still open carries neither marker. And with a window of
  zero nothing is ever marked. `UnmarkedRepeatIff` gives the exact condition and
  `SecondRowHides` the runs; once an archived row's window has lapsed, the next row
  does carry the tally.
- The account migration refuses startup for duplicate keys, and says so in its
  message. It also refuses when an unreadable row shows a thumbprint that another row
  is planned under, two unreadable rows without one included
  (`TwoUnreadableRowsAreRefused`). `RefusedIff` gives the exact condition.
- A comment in its second pass says that every thumbprint it writes is known to be
  unique. Against a unique index that is already there the final thumbprints are not
  all that counts: an update fails if a row read later still stores its thumbprint, and
  startup ends in a database error. `IndexRejectsIff` gives the exact condition.
- The CRL watermark is called monotonic. An unnumbered document can take its number
  from 10 to 5 (`UnnumberedDocumentLosesTheMaximum`). `NumberIsKeptIff` and
  `AlwaysTheMaximumIff` say exactly when a number is kept, and when it is the maximum,
  over every run.

## Model

| member | source | states |
|---|---|---|
| `OrderTable.GenerationCountsEntries` | src/acme_adcs_ra/store.py:1381-1420 | over any run of writes the generation equals its start plus the number of entries into processing, so it never decreases and rises on every entry |
| `OrderTable.LapsedLeaseStaysLapsed` | src/acme_adcs_ra/store.py:1422-1441 | a lease that was minted and is not held is never held again, whatever writes follow |
| `OrderTable.StaleWriterIsInert` | src/acme_adcs_ra/store.py:161-177 | a generation-scoped writer whose lease lapsed cannot change its order after any further run; the pending marker, which checks no status, is inert once a newer lease exists |
| `OrderTable.ScopedWriteNeedsItsLease` | src/acme_adcs_ra/store.py:1463-1499 | a scoped write that takes effect was made under the current lease, ends it, and touches no other order |
| `OrderTable.TerminalStays` | src/acme_adcs_ra/store.py:1606-1641 | no run reopens a finished order; only valid can still become revoked |
| `OrderTable.OrderStore.AcquireProcessingLease` | src/acme_adcs_ra/store.py:1381-1420 | succeeds exactly on a ready order and returns a generation held now and not before |
| `OrderTable.OrderStore.HoldsProcessingLease` | src/acme_adcs_ra/store.py:1422-1441 | true exactly for a processing order of that generation |
| `OrderTable.OrderStore.TransitionPendingToReady` | src/acme_adcs_ra/store.py:1443-1461 | the guarded write of the specification, and whether it applied |
| `OrderTable.OrderStore.TransitionProcessingToReady` | src/acme_adcs_ra/store.py:1463-1499 | the guarded, optionally generation-scoped write, and whether it applied |
| `OrderTable.OrderStore.ReclaimProcessingOrder` | src/acme_adcs_ra/store.py:1501-1576 | transition to valid with the certificate, or to ready, the clear of exactly the resolved ReqID and the audit row commit together, or nothing does; another ReqID is kept |
| `OrderTable.OrderStore.TransitionProcessingToValid` | src/acme_adcs_ra/store.py:1578-1604 | status and certificate move together under the caller's lease, and nothing else moves |
| `OrderTable.OrderStore.TransitionActiveToInvalid` | src/acme_adcs_ra/store.py:1606-1641 | only pending and ready orders expire, never a processing one |
| `OrderTable.OrderStore.TransitionProcessingToInvalid` | src/acme_adcs_ra/store.py:1643-1669 | the guarded, optionally generation-scoped write, and whether it applied |
| `OrderTable.OrderStore.TransitionToRevoked` | src/acme_adcs_ra/store.py:1671-1690 | valid and processing orders only, without a lease |
| `OrderTable.OrderStore.RecordPendingCaRequest` | src/acme_adcs_ra/store.py:958-977 | writes the marker exactly if the generation matches, whatever the status |
| `OrderTable.OrderStore.ClearPendingCaRequest` | src/acme_adcs_ra/store.py:979-994 | drops the marker of exactly the given ReqID |
| `IssuanceTheorems.AtMostOneCertificate` | src/acme_adcs_ra/routes/orders.py:310-393 | over every interleaving under safe safeguards an order has at most one request that the CA issued or may still issue, and no lease reaches the CA twice |
| `IssuanceTheorems.SubmissionIsFenced` | src/acme_adcs_ra/finalize.py:381-436 | at every CA call the caller's lease is current and the order has neither a row nor a live request |
| `IssuanceTheorems.MarksAreCounted` | src/acme_adcs_ra/app_state.py:98-125 | over every run, under any safeguards, the reference count of an order is the number of handlers that still hold its mark |
| `IssuanceTheorems.MarkCoversEveryCall` | src/acme_adcs_ra/enrollment.py:181-207 | because the gate awaits again after every cancellation, an order with a worker under way never reads as inactive, however often its client disconnects |
| `IssuanceTheorems.RecordingIsUncontended` | src/acme_adcs_ra/store.py:2147-2270 | the branch that reuses a row and the branch that loses the compare-and-set are dead: every recorded issuance gets its own row and its audit row |
| `IssuanceTheorems.RecordedIffCommittedOrDelivered` | src/acme_adcs_ra/finalize.py:1051-1078 | a verified certificate is evidenced, and named at all, if and only if its transaction commits or the emergency event is delivered |
| `IssuanceTheorems.NoSilentIssuance` | src/acme_adcs_ra/finalize.py:807-931 | a request the leg learned to be issued is in a live call's hands, lost to a restart, evidenced, or named nowhere because every write that would have named it failed; evidenced exactly if tracked; with absorption its result is never dropped |
| `IssuanceTheorems.OrphanIsEvidencedIffRecorded` | src/acme_adcs_ra/finalize.py:680-736 | a certificate lost to a transport fault is evidenced, and named at all, if and only if its quarantine or the audit row after it commits |
| `IssuanceTheorems.BareOrphanIsEvidencedIffAudited` | src/acme_adcs_ra/finalize.py:737-762 | without its bytes, if and only if the audit row commits |
| `IssuanceTheorems.EndedCallsAreAccountedFor` | src/acme_adcs_ra/enrollment.py:159-211 | when no call is left, every such request is tracked, unnamed, unrecorded for want of a write, or was lost to a restart |
| `IssuanceTheorems.RejectedIsNamedIffQuarantined` | src/acme_adcs_ra/finalize.py:573-649 | a rejected certificate is evidenced, and named at all, if and only if its quarantine commits |
| `IssuanceTheorems.FallbackNeverNamesTheRequest` | src/acme_adcs_ra/finalize.py:631-647 | the fallback audit row, whether it commits or not, leaves the request unnamed everywhere |
| `IssuancePending.PendingIsNamedIffRecorded` | src/acme_adcs_ra/finalize.py:476-516 | a request taken under submission is named if and only if the marker write does not raise and either finds its generation or is followed by a committed audit row |
| `IssuancePending.PendingStaysAsRecorded` | src/acme_adcs_ra/finalize.py:487-503 | whatever follows, an approval by the officer included: not recorded then is named nowhere ever, and its audit row, once written, names it for good |
| `IssuanceTheorems.SubmissionsFollowTheAccount` | src/acme_adcs_ra/finalize.py:329-378 | in every regime, at each submission the signing key is the account's current key and no deactivation of it has committed |
| `IssuanceTheorems.ReclaimsFindNoCall` | src/acme_adcs_ra/app_state.py:70-102 | with the registry and absorption no reclaim begins while any call is at work on its order |
| `IssuanceTheorems.ReopenedOrdersHaveNothingLive` | src/acme_adcs_ra/store.py:1501-1576 | under safe safeguards a reclaim that reopens an order finds neither a row nor a request that the CA issued or may still issue |
| `IssuanceTheorems.SubmissionsAreAuthorized` | src/acme_adcs_ra/finalize.py:329-344 | in every regime, at each CA call the account exists, is active, has the key that signed, and its kid is on the allowlist |
| `IssuanceTheorems.MutationsAreAuthorized` | src/acme_adcs_ra/routes/accounts.py:286-300 | the same of every deactivation and key change at the moment it is written |
| `IssuanceCertificates.ValidOrdersShowTheirCertificate` | src/acme_adcs_ra/store.py:2225-2236 | over every interleaving under safe safeguards a valid order has a row, neither quarantined nor revoked, and shows its certificate, which the CA issued for this order; no order shows another one |
| `IssuanceCertificates.StepKeepsCertificates` | src/acme_adcs_ra/store.py:1578-1604 | every action under safe safeguards keeps it |
| `IssuanceCalls.HaltLetsNoneIn` | src/acme_adcs_ra/routes/orders.py:330-342 | after a halt and until a restart no call passes the gate, so whoever still calls the CA was inside before |
| `IssuanceCalls.UnspentLeaseIsHandedBack` | src/acme_adcs_ra/routes/orders.py:356-359 | a call that is shed, turned back or denied makes its order ready again if it still holds the lease and the write commits; one refused by the halt keeps its lease |
| `IssuanceCalls.ReclaimReopensWhatItRead` | src/acme_adcs_ra/store.py:1501-1576 | a reclaim reopens the order under the generation it read or changes nothing, and clears the marker it read and no other |
| `IssuanceCalls.RestartForgetsMemoryOnly` | src/acme_adcs_ra/app_state.py:171-201 | a restart clears marks, locks, calls and the halt, and no stored row |
| `IssuanceCalls.LocksDoNotOutliveTheirHolders` | src/acme_adcs_ra/app_state.py:150-168 | over every run whoever an account lock names is still in its locked section, so no lock is leaked |
| `IssuanceCalls.OwnershipStays` | src/acme_adcs_ra/app_state.py:340-381 | over every run no account changes its kid or comes back once deactivated, and every order keeps the account it was made for |
| `IssuanceRegistry.StepKeepsRegistry` | src/acme_adcs_ra/app_state.py:108-125 | every action, under any safeguards, keeps the count of marks exact, and with absorption leaves no worker without its handler |
| `IssuanceLeaseSteps.StepKeepsLeases` | src/acme_adcs_ra/app_state.py:70-102 | every action under safe safeguards keeps the invariant on orders, leases, requests, reclaims and markers |
| `IssuanceAccounts.StepKeepsAccounts` | src/acme_adcs_ra/app_state.py:147-168 | every action keeps: whoever is in a locked section holds the lock, and what a worker read about the account stays true until it submits |
| `IssuanceEvidence.StepKeepsEvidence` | src/acme_adcs_ra/finalize.py:652-780 | every action keeps the account of each issued request whose ReqID was learned |
| `IssuanceNecessity.SafeguardsAreExact` | src/acme_adcs_ra/app_state.py:82-102 | for each of the 128 combinations of safeguards: no order ever has two live requests if and only if the combination is safe |
| `IssuanceNecessity.AbsorptionIsExact` | src/acme_adcs_ra/enrollment.py:192-207 | marks cover every worker, and results reach their handlers, if and only if the gate absorbs cancellations |
| `IssuanceNecessity.UnfencedIssuesTwice` | src/acme_adcs_ra/finalize.py:367-377 | with the lease check apart from the CA call, a run issues twice as soon as reclaims ignore the mark or the handler leaves with it |
| `IssuanceNecessity.UnmarkedIssuesTwice` | src/acme_adcs_ra/finalize.py:367-377 | the same with the check and the call together, if the operator overlooks undecided requests |
| `IssuanceNecessity.UntoldIssuesTwice` | src/acme_adcs_ra/finalize.py:467-526 | an accepted request that no row mentions, and an operator who overlooks it, lead to two requests |
| `IssuanceNecessity.MarkerIsLost` | src/acme_adcs_ra/finalize.py:487-489 | a failing marker write is one way to get there |
| `IssuanceNecessity.UnnamedIsReachable` | src/acme_adcs_ra/finalize.py:625-649 | under any safeguards a run ends with an issued certificate that nothing names although its fallback row committed |
| `IssuanceNecessity.UnrecordedIsReachable` | src/acme_adcs_ra/finalize.py:832-837 | under any safeguards a run ends with an orphan for which neither row committed |
| `EnrollmentLeg.SubmitCsr` | src/acme_adcs_ra/enrollment.py:814-846 | every way out names the ReqID of an issued or pending request exactly unless the deadline expired right after parsing; the bytes come along if they were in hand |
| `EnrollmentLeg.Exchange` | src/acme_adcs_ra/enrollment.py:672-813 | the tracked values say what the CA committed to at whatever step the exchange stops |
| `EnrollmentLeg.EnrollmentGate.Admit` | src/acme_adcs_ra/enrollment.py:150-175 | refuses exactly when closed or full, and gives the slot back when the submit raises; the count is the number of admitted unfinished jobs |
| `EnrollmentLeg.EnrollmentGate.Finished` | src/acme_adcs_ra/enrollment.py:177-179 | one admitted job leaves the count |
| `EnrollmentLeg.EnrollmentGate.Close` | src/acme_adcs_ra/enrollment.py:209-225 | no admitted job is cancelled |
| `EnrollmentLeg.EnrollmentGate.Await` | src/acme_adcs_ra/enrollment.py:181-207 | returns the outcome of the job and never because its caller was cancelled |
| `EnrollmentLeg.CancellationsAreAbsorbed` | src/acme_adcs_ra/enrollment.py:183-207 | any number of caller cancellations before the outcome leaves it unchanged |
| `Finalize.MarkOutlivesEveryOtherHolder` | src/acme_adcs_ra/app_state.py:98-125 | after any entries and exits the count is the balance of both, so one holder's exit never clears another's mark |
| `Finalize.ActiveEnrollments.Enter` | src/acme_adcs_ra/app_state.py:108-113 | the registry step of the protocol |
| `Finalize.ActiveEnrollments.Exit` | src/acme_adcs_ra/app_state.py:114-121 | the registry step of the protocol |
| `Finalize.IssuanceHalt.Halt` | src/acme_adcs_ra/app_state.py:198-201 | one way, and the first reason stands |
| `Finalize.SubmitEnrollment` | src/acme_adcs_ra/finalize.py:320-378 | the CA is called exactly if account, key, kid and lease all hold; a call that is turned back or denied hands its lease back; what each other answer does to orders, rows and audit whichever writes commit; an issued fault is evidenced if and only if one of its rows commits |
| `Finalize.QuarantineTransportOrphan` | src/acme_adcs_ra/finalize.py:652-777 | evidenced if and only if the quarantine or the audit row commits, and closed only after one of them did |
| `Finalize.QuarantineAndFail` | src/acme_adcs_ra/finalize.py:573-649 | evidence exactly with the quarantine; the fallback, if it commits, does not change whether the request is named |
| `Finalize.RecordVerified` | src/acme_adcs_ra/finalize.py:1043-1080 | recorded with its audit row, or tables unchanged, the event off the host if there is a hook and it works, and the halt latched exactly if the store is unwritable |
| `Finalize.Store.QuarantineCertificate` | src/acme_adcs_ra/store.py:2295-2410 | row, terminal order and audit row, or nothing |
| `Finalize.Store.RecordIssuance` | src/acme_adcs_ra/store.py:2147-2270 | row unless one exists, the flip to valid with its certificate under the lease, and the audit row of what happened, or nothing |
| `Finalize.ChecksTakeProtocolSteps` | src/acme_adcs_ra/finalize.py:320-378 | the protocol's two checks let a worker through to the CA, or turn it back, exactly as the method does, and write nothing |
| `Finalize.TurningBackTakesProtocolSteps` | src/acme_adcs_ra/finalize.py:320-378 | a worker without authorization or lease takes a run of the protocol too: the first hands the lease back and changes nothing else, the second changes nothing |
| `Finalize.SubmissionTakesProtocolSteps` | src/acme_adcs_ra/finalize.py:439-570 | for every answer of the CA and every failing write a run of the protocol from the CA call to the release of the account leaves the tables the method leaves |
| `Finalize.ShortBranchTakesProtocolSteps` | src/acme_adcs_ra/finalize.py:451-516 | the denied, pending and lost-authorization branches are one step each |
| `Finalize.OrphanTakesProtocolSteps` | src/acme_adcs_ra/finalize.py:680-777 | with the bytes in hand the object's writes are the protocol's save, note and close steps, stopping where a write raises |
| `Finalize.BareOrphanTakesProtocolSteps` | src/acme_adcs_ra/finalize.py:737-777 | the same without the bytes |
| `Finalize.RejectionTakesProtocolSteps` | src/acme_adcs_ra/finalize.py:600-649 | from the verifiers' refusal on, a run of the protocol leaves the tables the object leaves |
| `Finalize.RecordingTakesProtocolSteps` | src/acme_adcs_ra/finalize.py:1051-1080 | from the verifiers' consent on, a run of the protocol leaves the object's tables, off-host events and halt |
| `Coalescer.IndexAgreesWithRows` | src/acme_adcs_ra/audit_coalesce.py:386-455 | over every run the index stays within its cap and each open window has the count and opening time of its row, the newest of its key |
| `Coalescer.CountsAreConserved` | src/acme_adcs_ra/audit_coalesce.py:457-499 | the counts of a key's rows add up to the denials recorded for it, archiving and dropped windows included |
| `Coalescer.DisplacedOnlyByFresherKeys` | src/acme_adcs_ra/audit_coalesce.py:293-320 | a displaced window was still open, alone, and at least cap-many other keys were recorded at or after its last record |
| `Coalescer.UnmarkedRowIsFirst` | src/acme_adcs_ra/audit_coalesce.py:397-436 | over every run a previous-window tally is the exact count of the row before; while coalescing is on, a row without markers is the first of its key, or follows an archived row, or the index was dropped after the last count of the row before it |
| `Coalescer.UnmarkedRepeatIff` | src/acme_adcs_ra/audit_coalesce.py:386-436 | over every run a new row has neither marker although its key had rows before if and only if coalescing is off, or nothing was shed in this process and either the index was dropped since the key was last recorded or the newest of those rows was archived with its window still open |
| `Coalescer.SecondRowHides` | src/acme_adcs_ra/audit_coalesce.py:386-436 | record, then shut down, restart or archive, then record again: the second row is unmarked, unless the first was archived and its window has lapsed; then it carries the tally |
| `CoalescerRows.LapsedRecordOpensARow` | src/acme_adcs_ra/audit_coalesce.py:386-428 | over every run a denial whose key has no row opened less than a window ago writes a row of its own, counting one, and changes no other |
| `CoalescerRows.OnlyOpenRowsAreCountedInto` | src/acme_adcs_ra/audit_coalesce.py:386-396 | over every run only a record of its key less than a window after its opening changes the count of a row, by one, and the row is the newest of the key and not archived |
| `CoalescerRows.RecordIsCountedIff` | src/acme_adcs_ra/audit_coalesce.py:386-396 | a denial is counted into an existing row if and only if such a row exists and the index still has its window, which it has unless it was dropped or has shed something |
| `CoalescerRows.OpenedRowIsMarked` | src/acme_adcs_ra/audit_coalesce.py:397-427 | a new row carries the exact number of windows shed so far, and the count of the row before it exactly if its own window was still in the index, lapsed |
| `CoalescerGrowth.RowsAreBoundedByTime` | src/acme_adcs_ra/audit_coalesce.py:283-320 | while fewer other windows than the cap are open at each opening, rows of a key are a window apart and a span of T holds at most floor(T/W)+1 |
| `DenialCoalescing.DenialCoalescer.Record` | src/acme_adcs_ra/audit_coalesce.py:326-455 | one denial takes exactly the specified step and keeps the invariant: it is counted exactly if its window is open and its row there, and is a row of its own otherwise |
| `DenialCoalescing.DenialCoalescer.EvictForNewWindow` | src/acme_adcs_ra/audit_coalesce.py:283-320 | with room nothing goes; otherwise all expired windows, then the least recently touched until there is room for one, each counted |
| `DenialCoalescing.DenialCoalescer.Extend` | src/acme_adcs_ra/audit_coalesce.py:457-499 | the row on disk gets the new count, or the caller learns that it is gone |
| `DenialCoalescing.DenialCoalescer.Close` | src/acme_adcs_ra/audit_coalesce.py:501-510 | drops the index and no row |
| `Base64url.EncodeReadsBack` | src/acme_adcs_ra/jws.py:69-77 | the unpadded encoding of section 5 of RFC 4648 decodes to the same octets |
| `Base64url.Base64urlIsFaithful` | src/acme_adcs_ra/jws.py:69-77 | it has all that the proofs about keys ask of an encoding |
| `Base64urlText.EncodingIsRfc4648` | src/acme_adcs_ra/jws.py:69-71 | as many letters as the octets need, taken from the alphabet of RFC 4648 at the six-bit digits of the octets read as one number, filled up with zero bits |
| `Base64url.ReadableIff` | src/acme_adcs_ra/jws.py:109-115 | padding and length: the decoder reads a text exactly if all its characters are in the alphabet and no single character is left over after the groups of four |
| `Octets.OctetsArePositional` | src/acme_adcs_ra/jws.py:128-140 | an octet string is read as a number with its first octet highest |
| `Jwk.StrictOctetsAccept` | src/acme_adcs_ra/jws.py:85-125 | a text decodes strictly to given octets if and only if it is their encoding and they are not empty |
| `Jwk.UintHasOneSpelling` | src/acme_adcs_ra/jws.py:128-140 | exactly one text is accepted for a positive integer, the minimal one; none for zero |
| `Jwk.CoordinateHasOneSpelling` | src/acme_adcs_ra/jws.py:143-157 | exactly one text is accepted for a coordinate, the fixed-width one |
| `JwkSpellings.StrictCoordinatesFillTheField` | src/acme_adcs_ra/jws.py:143-157 | the coordinates validation accepts are of exactly 32, 48 or 66 octets, as their curve asks |
| `JwkCanonical.CanonicalizeJwk` | src/acme_adcs_ra/jws.py:211-252 | succeeds exactly on leniently readable keys, returns the same members with the same integers in their one spelling, and the closing validation never fails |
| `JwkSpellings.EveryRsaSpellingIsRead` | src/acme_adcs_ra/jws.py:190-233 | with leading zeros, with any padding: an RSA key is read as the values of its two octet strings |
| `JwkSpellings.EveryEcSpellingIsRead` | src/acme_adcs_ra/jws.py:190-248 | an EC key is read if and only if its curve is known and the values of its coordinates fit, and then as those values |
| `JwkCanonical.RespellUint` | src/acme_adcs_ra/jws.py:225-233 | stripping zeros and re-encoding yields the minimal spelling of the same integer |
| `JwkCanonical.RespellCoordinate` | src/acme_adcs_ra/jws.py:240-248 | stripping and padding yields the fixed-width spelling, and fails exactly on a value that does not fit |
| `JwkCanonical.RespelledIsStrict` | src/acme_adcs_ra/jws.py:211-252 | a canonicalized JWK is strictly readable as the key it was |
| `JwkCanonical.RespellingIsIdempotent` | src/acme_adcs_ra/jws.py:211-220 | a canonicalized JWK reads as the same key and canonicalizing it changes nothing more; other members are carried through |
| `JwkCanonical.StrictIffCanonical` | src/acme_adcs_ra/jws.py:160-187 | validation accepts a JWK exactly when it is its own canonical form |
| `JwkCanonical.KeyJsonIsInjective` | src/acme_adcs_ra/jws.py:304-312 | the text that is hashed determines the key |
| `ThumbprintText.ThumbprintIsOfTheRequiredMembers` | src/acme_adcs_ra/jws.py:304-312 | the thumbprint of a valid JWK hashes the JSON object of exactly its required members, strictly ascending by name, each with its own text (section 3 of RFC 7638) |
| `JwkCanonical.SameThumbprintIffSameKey` | src/acme_adcs_ra/jws.py:292-312 | unless the hash collides on the two texts, two valid JWKs share a thumbprint if and only if they are the same key |
| `JwkCanonical.RespelledShareThumbprintIffSameKey` | src/acme_adcs_ra/jws.py:211-312 | the same for any two readable spellings once canonicalized |
| `Der.LengthBytes` | src/acme_adcs_ra/jws.py:267-276 | the specified length octets for every length, the wrong first octet of very long ones and the failure beyond 255 octets included |
| `Der.LengthReadsBackIff` | src/acme_adcs_ra/jws.py:267-276 | they read back as their length (section 8.1.3 of X.690) if and only if at most 126 octets follow the first |
| `Der.IntegerIsMinimal` | src/acme_adcs_ra/jws.py:255-264 | contents are the shortest non-negative ones, read back, and the branch that prepends zero is never taken |
| `Der.SignatureReadsBack` | src/acme_adcs_ra/jws.py:279-289 | for any coordinate width a strict DER reader gets back the pair of integers that, written at that width one after the other, are the signature, if the length of the body takes at most 126 octets, and reads nothing otherwise |
| `Der.PairIsUnique` | src/acme_adcs_ra/jws.py:285-287 | there is only one such pair |
| `Der.RawToDerFailsIff` | src/acme_adcs_ra/jws.py:279-289 | the conversion fails exactly on a wrong length and where the size of the body takes more than 255 octets |
| `Der.CoordinatesAlwaysConvert` | src/acme_adcs_ra/jws.py:279-289 | at coordinate widths up to 100 octets every signature of the right length converts and reads back as its pair of integers |
| `AccountMigration.AccountStore.MigrateAccountsCanonicalJwk` | src/acme_adcs_ra/store.py:537-620 | refuses exactly on a collision and then changes nothing; fails exactly where a unique index already present is in the way; otherwise every readable row is canonical and unreadable rows are untouched |
| `AccountMigration.AccountStore.Plan` | src/acme_adcs_ra/store.py:540-567 | pass one groups every row by the thumbprint it will hold and lists exactly the rows to rewrite, without writing |
| `AccountMigration.AccountStore.ApplyUpdates` | src/acme_adcs_ra/store.py:594-600 | pass two applies the listed rewrites, all of them exactly if the index is absent or lets each pass |
| `AccountMigration.MigratedRowIsCanonical` | src/acme_adcs_ra/store.py:549-566 | a rewritten row keeps its key and its other members, is strictly readable, stores the thumbprint of what it holds and needs no further rewrite |
| `AccountMigration.EveryRowIsRescuedOrKept` | src/acme_adcs_ra/store.py:549-566 | every readable row ends with the same key, strictly readable, and the thumbprint of that JWK; every other row is as it was |
| `AccountMigration.CollisionIsSameKey` | src/acme_adcs_ra/store.py:568-586 | two readable rows collide exactly when they hold the same key |
| `AccountMigration.RefusedIff` | src/acme_adcs_ra/store.py:568-586 | startup is refused if and only if two readable rows hold one key or an unreadable row shows the thumbprint another row is planned under |
| `AccountMigration.CollisionCheckIsExact` | src/acme_adcs_ra/store.py:568-570 | the grouping finds a collision exactly when two rows are planned under one thumbprint |
| `AccountMigration.NoDuplicateAfterCollisionCheck` | src/acme_adcs_ra/store.py:607-620 | the final duplicate check can never fire |
| `AccountMigration.SecondRunIsIdle` | src/acme_adcs_ra/store.py:558-566 | a second run passes and rewrites nothing |
| `AccountMigration.IndexRejectsIff` | src/acme_adcs_ra/store.py:594-600 | against a unique index the second pass fails if and only if some row is rewritten to a thumbprint that a row read after it still stores |
| `AccountMigration.TwoUnreadableRowsAreRefused` | src/acme_adcs_ra/store.py:554-563 | two unreadable rows without a thumbprint are refused though no thumbprint is duplicated |
| `CrlGate.SingleFlight` | src/acme_adcs_ra/crl_evidence.py:1113-1163 | however late the callbacks: one retrieval under way per key, at most the limit in all, each on the map under its own key |
| `CrlGate.CallerNeverJoinsASettledFlight` | src/acme_adcs_ra/crl_evidence.py:1119-1137 | a caller awaits a retrieval that had not settled when it arrived, starts one only if there was none, and is refused only by a full map |
| `CrlGate.BusyIsEarned` | src/acme_adcs_ra/crl_evidence.py:1119-1160 | a caller is refused for want of room only while the limit's worth of retrievals have callbacks that have not run, and none for its own key is under way |
| `CrlGate.CrlEvidenceGate.Run` | src/acme_adcs_ra/crl_evidence.py:1113-1141 | admission as specified, invariant kept |
| `CrlGate.CrlEvidenceGate.Clear` | src/acme_adcs_ra/crl_evidence.py:1156-1160 | the late callback removes its own retrieval from the map and no other entry |
| `Timestamps.IsoOrderIsChronological` | src/acme_adcs_ra/store.py:2803-2810 | on the stored timestamp form, text order is chronological order |
| `Timestamps.IsoIsReadable` | src/acme_adcs_ra/store.py:2803-2810 | the text holds the fields as decimal figures between the separators of ISO 8601 |
| `CrlWatermark.AdvancesIffNewerOrFirst` | src/acme_adcs_ra/crl_evidence.py:179-225 | the test inside the transaction advances exactly when the comparison says newer or first |
| `CrlWatermark.NumbersDecide` | src/acme_adcs_ra/crl_evidence.py:206-218 | two numbers decide alone between newer, equal and older |
| `CrlWatermark.TimesDecide` | src/acme_adcs_ra/crl_evidence.py:219-225 | unless both documents are numbered, their instants decide between the three |
| `CrlWatermark.UndecidedIff` | src/acme_adcs_ra/crl_evidence.py:204-225 | first exactly without a stored mark; indeterminate exactly if a timestamp is needed and one of the two is missing or does not read |
| `CrlWatermark.WatermarkIsTheMaximum` | src/acme_adcs_ra/store.py:2776-2824 | when every document is numbered, after any interleaving the stored mark is the maximum among those acted on |
| `CrlWatermark.AlwaysTheMaximumIff` | src/acme_adcs_ra/store.py:2776-2824 | over a whole run the stored mark is at every moment that maximum if and only if no confirmation moves it to an unnumbered document |
| `CrlWatermark.NumberIsKeptIff` | src/acme_adcs_ra/store.py:2799-2810 | over a whole run the number of a numbered mark is kept or raised at every step if and only if no confirmation replaces a numbered mark by an unnumbered document |
| `CrlWatermark.UnnumberedDocumentLosesTheMaximum` | src/acme_adcs_ra/store.py:2799-2810 | three commits, the middle one unnumbered, take the number from 10 to 5 |
| `CrlWatermark.ConfirmedOnceWithAudit` | src/acme_adcs_ra/store.py:2875-2905 | a serial is confirmed at most once and audited exactly then |
| `CrlWatermark.EveryMarkWasConfirmed` | src/acme_adcs_ra/store.py:2875-2905 | whatever mark a run leaves, one of its confirmations put it there, won, and its serial is confirmed and audited |
| `CrlWatermark.RevocationStore.AdvanceCrlWatermark` | src/acme_adcs_ra/store.py:2776-2824 | moves exactly if the served document advances |
| `CrlWatermark.RevocationStore.ConfirmCaRevocationWithAudit` | src/acme_adcs_ra/store.py:2826-2905 | flag, mark and audit row together or nothing |
| `IssuerRecovery.CollectCandidateIssuers` | src/acme_adcs_ra/issuer_recovery.py:140-201 | an untruncated scan returns exactly the distinct CA certificates stored, in scan order; a truncated one met one of its bounds |
| `IssuerRecovery.DistinctIsExact` | src/acme_adcs_ra/issuer_recovery.py:160-195 | deduplication loses no certificate and repeats none |
| `IssuerRecovery.CandidatesAreStoredCas` | src/acme_adcs_ra/issuer_recovery.py:140-201 | the candidates are exactly the CA certificates that some stored row holds, each with such a row |
| `IssuerRecovery.DirectIssuer` | src/acme_adcs_ra/issuer_recovery.py:204-226 | an unused candidate that signed the child, or none did |
| `IssuerRecovery.BuildVerifiedChain` | src/acme_adcs_ra/issuer_recovery.py:229-251 | distinct certificates, at most eight, each link signed by the next, only the top self-issued, and the walk stops for one of its three reasons |
| `IssuerRecovery.RecoverIssuerChain` | src/acme_adcs_ra/issuer_recovery.py:254-311 | what is recovered issues the leaf; after a full scan something is recovered exactly when a stored CA certificate issued it |
| `IssuerRecovery.IssuingCaCertificate` | src/acme_adcs_ra/crl_evidence.py:228-269 | finds a signer in the chain exactly if there is one |
| `HistoryVerdict.ReachesByParents` | scripts/check_committed_identifiers.py:656-662 | the definition by paths obeys the parents-first recurrence |
| `HistoryVerdict.DecideAll` | scripts/check_committed_identifiers.py:642-662 | every commit is marked safe exactly when no exposing path leaves it |
| `HistoryVerdict.DescribesOne` | scripts/check_committed_identifiers.py:607-642 | walk and batch check determine one history, so the verdict is about it alone |
| `HistoryVerdict.AbsentDeclarationVerdict` | scripts/check_committed_identifiers.py:607-664 | skip exactly when from HEAD and every tip each path to a non-private declaration first passes a clean private one |
| `TokenBuckets.GrantsAreBounded` | src/acme_adcs_ra/rate_limit.py:51-64 | in any interval the tokens granted are at most the capacity plus the refill of its length |
| `TokenBuckets.TakeIsExact` | src/acme_adcs_ra/rate_limit.py:51-64 | a granted request takes exactly its own tokens off the refilled level and a refused one none |
| `TokenBuckets.TokensAreConserved` | src/acme_adcs_ra/rate_limit.py:51-64 | over any run in which the bucket does not overflow, what was granted and what is left make up what was there and what was refilled |
| `TokenBuckets.LevelStaysInBounds` | src/acme_adcs_ra/rate_limit.py:51-64 | the level stays between zero and the capacity, whatever the clock does |
| `TokenBuckets.WaitingSuffices` | src/acme_adcs_ra/rate_limit.py:66-70 | after waiting that long with no other taker a request of at most the capacity succeeds |
| `TokenBuckets.WaitingIsNeeded` | src/acme_adcs_ra/rate_limit.py:66-70 | before the last second of the announced wait the request is still refused |
| `TokenBuckets.TokenBucket.Take` | src/acme_adcs_ra/rate_limit.py:51-64 | one request takes the specified step |
| `KeyChangeLimit.KeyChangesAreLimited` | src/acme_adcs_ra/store.py:1230-1256 | any span of the window holds at most the limit of successful key changes per kid, across its accounts, whichever are created and deactivated meanwhile |
| `KeyChangeLimit.RolloverSucceedsIff` | src/acme_adcs_ra/store.py:1213-1273 | a rollover goes through if and only if the account is valid with the expected key, the new key is free and fewer rows of its kid than the limit lie in the window; otherwise which failure it is |
| `KeyChangeLimit.EarlyStampBreaksTheBound` | src/acme_adcs_ra/store.py:1236-1273 | were the row stamped before the cutoff is read, the bound would fail |
| `KeyChangeLimit.RotationIsAtomic` | src/acme_adcs_ra/store.py:1257-1273 | key and audit row move together, keys stay unique, and a second rollover from the same key is stale |
| `KeyChangeLimit.AccountStore.UpdateAccountKeyWithAudit` | src/acme_adcs_ra/store.py:1213-1273 | which of the failures occurs, with nothing changed, or the rotation with its audit row |

## Left out

- Signature checks, X.509 and CSR parsing and SHA-256 are uninterpreted; where a thumbprint identifies a key, the hash is assumed not to collide on the two texts compared.
- HTTP, TLS, Kerberos, DNS, watchdog timers and redirects: a CA call or CRL fetch is one nondeterministic result.
- IssuanceProtocol: threads are atomic steps rather than Dafny objects, so torn reads between the locked sections named above are not represented.
- The processing age floor of the reclaim route, retention gates, nonce and directory routes and CSR gate checks: each only forbids runs or is a single branch.
- EnrollmentLeg.SubmitCsr: the guard that needs Windows, the session construction and the text parsing of CA pages are inputs of the model.
- Coalescer: detail texts, kid samples and distinct-kid counts are not modelled, nor are event types that are never coalesced; they keep one row per event. Configuration and clock carry over a restart.
- DenialCoalescing.DenialCoalescer.Record: the second clock reading inside the lock is taken to equal the first, and row writes succeed.
- CrlWatermark.AdvancesIffNewerOrFirst: timestamps in other forms than whole UTC seconds are not claimed about.
- CrlWatermark.ConfirmedOnceWithAudit: serials are unique, so an update touches at most one row.
- CrlGate.CrlEvidenceGate.Run: changing the limits before the pool starts is left out; the limit is fixed.
- HistoryVerdict.AbsentDeclarationVerdict: the order that git promises for its topological walk is assumed; the checks that the history is whole and its objects verify come before and are not modelled; whether a text declares private is uninterpreted.
- KeyChangeLimit.AccountStore.UpdateAccountKeyWithAudit: timestamps are whole seconds as integers rather than text; their text order is covered in `Timestamps`.
- TokenBuckets: levels and times are real numbers where the source has floats, so nothing is claimed about rounding.
- CrlWatermark: the administrative `reset_crl_watermark`, which deletes a mark so that the next document counts as the first, is not a step of the runs.
- KeyChangeLimit.KeyChangesAreLimited: audit rows are not pruned during the run; retention is longer than any window that makes sense.
- The order limiter stamps its rows before it takes the write lock, so no bound is claimed for it.
- The reconciliation scripts, policy evaluation, audit bounds and log rotation are separate and easier subjects.
