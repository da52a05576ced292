# Scheduler verification

A Dafny model of the parts of the data-delivery scheduler that decide who is paid, who is
slashed, who is served and who is offered: the money path of a delivery session (accounting,
escrow, settlement), contradiction slashing, the API rate limiter, discovery ranking, probe
history and reliability, and epoch-delayed activation of subscriptions.

Each component that the program updates in place is a class whose methods follow the program
branch by branch; each method's contract equates the new state with a step function of the old
one. The theorems are about whole runs of those step functions: arbitrary sequences of calls,
ticks and hub answers.

| module | component |
|---|---|
| `CidComparison`, `Accounting`, `AccountingRuns`, `Submissions`, `DirectCompares` | delivery claims, attestations, comparison rounds, session ledgers, where documents come from, comparisons outside the rounds |
| `Escrow`, `EscrowRuns` | escrow accounts, drains, low-credit signals, grace periods, top-ups |
| `Settlement`, `SettlementRuns` | batch settlement, its agreement with escrow and ledger, batch after batch |
| `SystemRuns` | deliveries and money in one run |
| `Contradictions`, `ContradictionRuns`, `Thresholds` | contradiction evidence and slashing, what the configured threshold means |
| `RateLimit`, `RateLimitRuns` | the token bucket of the API middleware |
| `Pricing`, `Discovery`, `Offers` | clearing prices, the tip query and the snapshot query, their answers in terms of the columns |
| `ProbeHistory`, `ProbeRuns`, `ProbeTies`, `Timestamps`, `Reliability`, `Prober` | probe storage and pruning, whole runs of it, records of one instant, the written time format, the score, one probe |
| `Subscriptions`, `EpochActivation`, `Lifecycles` | subscription lifecycle, hub events and epoch waiters, one subscription through a run |
| `Witnesses` | concrete inputs and runs behind the findings |
| `Common`, `Ordering` | options, results, counting, string order |

## How the program is modelled

- Every manager call, every tick and every comparison round is one atomic step that reads the
  clock once. Rounds, ticks, hub events, HTTP calls and polls may interleave in any order.
- Wall-clock instants are integer nanoseconds; what is written as an RFC 3339 string is the whole
  second (`Common.Stamp`). The token bucket's clock is in exact real seconds.
- `float64` is `real`: there is no rounding. Chain heights and tips are 64-bit integers that wrap;
  counts, seconds and configured windows are unbounded.
- Claims, attestations and comparison results have no unique key on (session, block) in
  `pkg/schema/schema.graphql`, so they are append-only sequences and a document's position is its
  identity; that there is at most one of each per block is proved, not assumed. Ledgers, escrows,
  and subscriptions are maps by the unique key the schema declares.
- Decoding of a JSON CID list or event is a function parameter that may fail. The hub's answers,
  the observed chain heights, failing store accesses, the order in which a store lists documents
  and the order in which a map is iterated are parameters too; theorems hold for all of them.
- Document ids and batch ids are positions or parameters. `signals`, `sent` and `slashes` record
  what was handed to the hub.

## Findings

Each is a behaviour of the code as it stands. The theorems named give its exact boundary, and the
member of `Witnesses` named shows it on a concrete input; that no round finds a silent indexer holds
of every run and needs none.

- A clean or under-report verdict can be trusted exactly when the claimed list repeats no CID
  (`CidComparison.CleanIsSoundIffClaimHasNoRepeats`, `UnderReportIsSoundIffClaimHasNoRepeats`):
  with a repeat, a host can attest to a CID never claimed and still be clean (`ForgedDelivery`).
  Conversely a strictly smaller delivery is always recognised exactly when the attested list
  repeats none (`UnderReportIsCompleteIffAttestationHasNoRepeats`).
- Rounds scan pending claims only, so no round ever records a silent indexer
  (`AccountingRuns.RoundsNeverFindASilentIndexer`), although
  `pkg/accounting/manager.go:252-258` decides that outcome and `docs/api-reference.md:786` lists it.
- A direct `Compare` counts a block once more exactly when it is already clean, and over any run with
  direct comparisons the count exceeds the clean blocks by exactly the number of such calls
  (`AccountingRuns.DirectCompareKeepsTheCountIff`, `DirectCompares.CountIsCleanBlocksPlusRepeats`;
  `DirectCompareCountsTwice`). Blocks compared clean before the ledger opened are never counted
  (`AccountingRuns.BlocksVerifiedCountsDistinctCleanBlocks`; `CleanBlockMissedByLateLedger`).
- Whole-second stamps cut the attestation window and the grace period short by less than a second,
  unless the claim or the warning falls on a whole second (`AccountingRuns.WindowIsFullIff`,
  `EscrowRuns.GraceIsFullIff`; `WindowCutShort`, `GraceCutShort`).
- The refund in a settlement uses the ledger's price, a drain the escrow's; they agree exactly when
  the two charges are equal or both use up the deposit (`Settlement.RefundIsTheDrainBalanceIff`;
  `RefundBelowDrainedBalance`).
- The indexer's amount is not clamped to the deposit, so a batch pays the funds plus the overruns
  (`Settlement.SettlementConservesMoney`, `PaysExactlyTheFundsIff`; `OverrunPaidBeyondDeposit`).
- `ProcessBatch` looks neither at repeats in its list nor at the escrow's status: within a batch and
  across batches every accepted mention of a session is paid at what the session has to pay out then,
  so each is paid once exactly when no later mention finds something to pay out
  (`Settlement.PaysEachAccountOnceIff`, `SettlementRuns.PaidOnceAcrossBatchesIff`;
  `ListedTwicePaidTwice`, `SettledAccountPaidAgain`). A settled account stays settled exactly as
  long as nobody tops it up (`EscrowRuns.SettledIsFinalIff`; `SettledAccountReactivated`).
- A failed write after the broadcast leaves the local books behind the hub
  (`Settlement.RecordsMatchTheBroadcastIff`, `ListedAccountsSettleIff`; `WritesLost`). A lost update after a slash
  breaks the account of spent evidence (`ContradictionRuns.AccountingSurvivesACheckIff`), and a
  later accepted slash cites the evidence again exactly when the indexer's open records still reach
  the threshold (`ContradictionRuns.LostEvidenceIsCitedAgainIff`; `EvidenceCitedAgain`).
- Against a budget that is not positive, the price check passes any ask, and the offered price can
  lie outside the two bounds (`Discovery.OfferedPricesClear`; `ZeroBudgetClearsBelowAsk`). With
  negative tips the tip query can return nothing although indexers survived the first pass
  (`Discovery.TipAnswerIsEmptyIff`; `NegativeTipsExcludeEverybody`). The lag is a 64-bit difference:
  an indexer so far behind that it wraps is kept, so the filter is sound exactly when no survivor is
  more than the largest 64-bit integer behind (`Discovery.LagFilterIsSoundIff`; `SmallestTipIsKept`).
- A failed probe sets the indexer's tip to 0 and refreshes its heartbeat column. So the inactivity
  check measures the time since the latest probe or heartbeat, whatever the probe found
  (`Prober.DeactivatedIffUnseen`), and an indexer that never answers again and sends no heartbeat
  stays active exactly as long as it is probed often enough (`Prober.UnansweredProbesKeepActiveIff`;
  `UnansweredButActive`).
- Records of one instant are ordered by the order in which the store lists them. What pruning leaves
  is independent of that order exactly when the limit does not cut through the records of an instant
  (`ProbeTies.ListingIsIrrelevantIff`; `ListingDecidesTie`), and otherwise only such records are
  exchanged (`ProbeHistory.WalksDisagreeOnlyOnTies`).
- The target height of an epoch waiter is a 64-bit sum; every run waits a full epoch exactly when the
  sum does not wrap (`EpochActivation.EpochIsRespectedIff`; `EpochWrapsAround`).

## Model

| member | source | states |
|---|---|---|
| CidComparison.CompareDocCids | pkg/accounting/manager.go:309-358 | the two-set comparison loop computes the verdict that lengths and set inclusion decide; an undecodable list is an error, the claim's first |
| CidComparison.VerdictIff | pkg/accounting/manager.go:309-358 | on any lists, repeats included: which of the two fails to decode decides the error, the claim first; clean iff the lengths are equal and everything claimed was attested, under-report iff fewer are attested and all of them were claimed |
| CidComparison.ClassifyDecidesSetRelations | pkg/accounting/manager.go:309-358 | without repeats: clean iff the CID sets are equal, under-report iff the attested set is a strict subset, mismatch iff something attested was not claimed |
| CidComparison.ClassifyIgnoresOrder | pkg/accounting/manager.go:321-358 | reordering either list never changes the verdict, repeats included |
| CidComparison.CleanIsSoundIffClaimHasNoRepeats | pkg/accounting/manager.go:332-345 | a clean verdict proves equal sets for every possible attestation iff the claim repeats no CID |
| CidComparison.UnderReportIsSoundIffClaimHasNoRepeats | pkg/accounting/manager.go:346-358 | an under-report verdict proves a strictly smaller set for every possible attestation iff the claim repeats no CID |
| CidComparison.UnderReportIsCompleteIffAttestationHasNoRepeats | pkg/accounting/manager.go:346-358 | every strictly smaller delivery is reported as such, whatever was claimed, iff the attestation repeats no CID |
| Accounting.Manager.SubmitDeliveryClaim | pkg/accounting/manager.go:84-122 | field checks, then: same CIDs resubmitted give the document on file, other CIDs are refused, otherwise one pending claim is appended |
| Accounting.Manager.SubmitAttestation | pkg/accounting/manager.go:124-158 | field checks, then: a second attestation for the block is refused, otherwise one is appended |
| Accounting.Manager.CreateSessionLedger | pkg/accounting/manager.go:160-175 | opens one ledger per session and never overwrites it |
| Accounting.Manager.Compare | pkg/accounting/manager.go:215-306 | judges the two documents of a block, waits inside the window, records the result, confirms the documents and charges the ledger on a clean result only |
| Accounting.Manager.UpdateLedger | pkg/accounting/manager.go:369-387 | one more verified block, one price less credit but never below zero; no ledger, no change |
| Accounting.Manager.RunComparisons | pkg/accounting/manager.go:390-427 | collecting, de-duplicating, sorting and comparing pending claims equals comparing the strictly sorted set of their keys |
| Accounting.SortedListingIsUnique | pkg/accounting/manager.go:412-417 | two strictly sorted listings of the same keys are equal, so any correct sort gives the same round |
| Accounting.RoundIgnoresListingOrder | pkg/accounting/manager.go:390-423 | every listing of the pending claims by the store leads to the same final books |
| AccountingRuns.EveryReachableStateIsSound | pkg/accounting/manager.go:84-175 | in every run: one claim, one attestation and one result per block, results justified by the stored documents, confirmed iff judged, ledgers consistent with the results |
| AccountingRuns.RunsOnlyAccumulate | pkg/accounting/manager.go:84-158 | stored CID lists never change, confirmed documents stay confirmed, results stay recorded |
| AccountingRuns.BlocksVerifiedCountsDistinctCleanBlocks | pkg/accounting/manager.go:369-427 | for ever, BlocksVerified is the number of distinct clean blocks iff none was clean before the ledger opened |
| AccountingRuns.CreditIsEscrowLessCleanBlocks | pkg/accounting/manager.go:369-387 | the clamped, block-by-block credit equals the escrow less price times distinct clean blocks, floored at zero |
| AccountingRuns.ChargedKeepsCredit | pkg/accounting/manager.go:374-387 | one clamped subtraction takes the floored difference for n blocks to the one for n + 1 |
| AccountingRuns.RoundSettlesClaims | pkg/accounting/manager.go:215-259 | after a round a claim is pending iff it was and either has no attestation with the window open, or has one and a list fails to decode |
| AccountingRuns.RoundsNeverFindASilentIndexer | pkg/accounting/manager.go:390-395 | no run of submissions and rounds records a silent indexer |
| AccountingRuns.ResultsAreFinal | pkg/accounting/manager.go:215-306 | a block is judged at most once, whatever is submitted late |
| AccountingRuns.DirectCompareKeepsTheCountIff | pkg/accounting/manager.go:215-306 | in every state that rounds reach, a direct comparison keeps the count exact iff the block has no clean result yet, and otherwise raises it by exactly one |
| AccountingRuns.CleanIsJudgedAgain | pkg/accounting/manager.go:231-259 | whatever has a clean result is judged clean again at any time |
| DirectCompares.CountIsCleanBlocksPlusRepeats | pkg/accounting/manager.go:215-306 | in every run of submissions, rounds and direct comparisons, from the opening of its ledger a session counts its distinct clean blocks, less those clean before, plus one per direct comparison of a block already clean |
| DirectCompares.CleanIsDecided | pkg/accounting/manager.go:391-408 | in such runs too, a clean block is judged clean again and is never pending, so no round compares it |
| AccountingRuns.ClaimsAnswerTruthfully | pkg/accounting/manager.go:84-122 | in every reachable state: exactly when a claim is refused and for which of the three reasons; what is accepted is on file; a refused or repeated claim changes nothing, a new one appends one document |
| AccountingRuns.AttestationsAnswerTruthfully | pkg/accounting/manager.go:124-158 | in every reachable state: exactly when an attestation is refused and for which reason; an accepted one is the one document appended |
| Submissions.DocumentsComeFromSubmissions | pkg/accounting/manager.go:84-158 | in every run, each stored claim and attestation has the fields of one submission of the run, and its stored time is the whole second of that submission |
| Submissions.RoundRecordsTheJudgements | pkg/accounting/manager.go:390-427 | a round adds exactly the judgements of the pending claims that can be judged, blocks of a session in ascending order, sessions in the order of their names |
| Submissions.BothDocumentsDecide | pkg/accounting/manager.go:231-239 | in every reachable state, a block with two documents is judged by their lists, the claimed one against the attested one |
| Submissions.LoneClaimWaits | pkg/accounting/manager.go:241-248 | a claim without an attestation is held until the window has passed since its stored second, and then the host is silent |
| Submissions.LoneAttestationWaits | pkg/accounting/manager.go:250-257 | an attestation without a claim is held until the window has passed since its stored second, and then the indexer is silent |
| Submissions.SilenceComesWithTheWindow | pkg/accounting/manager.go:360-367 | over runs, in the time since the submission that made the claim: a round finds the host silent only without an attestation and after all but less than a second of the window, and does so without one after the whole window |
| Submissions.DocumentsAreConfirmedIffJudged | pkg/accounting/manager.go:261-271 | in every run, a claim or attestation is confirmed iff a recorded result names it |
| Submissions.LedgerKeepsItsTerms | pkg/accounting/manager.go:160-175 | through everything that follows, a ledger is of the host and indexer, escrow and price it was opened with |
| AccountingRuns.WindowIsFullIff | pkg/accounting/manager.go:360-367 | the window closes at most one second early and never late; it is always full iff the claim was submitted on a whole second |
| Escrow.EscrowManager.CreateEscrow | pkg/settlement/escrow.go:53-72 | opens one account per session with its low-water threshold |
| Escrow.EscrowManager.DrainSession | pkg/settlement/escrow.go:103-160 | recomputes the balance, broadcasts at most one warning, starts the grace period, expires on grace end or exhaustion; only active accounts with a ledger change |
| Escrow.EscrowManager.TopUp | pkg/settlement/escrow.go:162-178 | raises both balances, clears signal and grace and reactivates; refuses amounts that are not positive and unknown sessions |
| Escrow.EscrowManager.DrainAll | pkg/settlement/escrow.go:180-191 | one tick is the sequence of drains of the listed accounts, with their warnings in order |
| Escrow.DrainEachIsPointwise | pkg/settlement/escrow.go:180-191 | draining a list without repeats is one independent drain per listed session |
| Escrow.TickIgnoresListingOrder | pkg/settlement/escrow.go:180-191 | in any listing order a tick drains every active account that has a ledger exactly once and no other |
| EscrowRuns.RunKeepsMoneyInv | pkg/settlement/escrow.go:53-178 | every run of openings, verified blocks, drains, top-ups and settlements keeps funding, balances, signals and grace accounted for |
| EscrowRuns.LedgerCreditIsCoveredByEscrow | pkg/settlement/escrow.go:117-122 | in every reachable state on equal terms: ledger credit <= from-scratch balance <= stored balance <= deposits plus top-ups, the credit being exactly the floored difference |
| EscrowRuns.BalanceCoversBlocks | pkg/settlement/escrow.go:117-122 | in every reachable state on equal terms, the stored balance is at least the deposit less the price of the verified blocks |
| EscrowRuns.DrainMakesEscrowExact | pkg/settlement/escrow.go:103-160 | right after a drain the balance is exact and exceeds the ledger's credit by at most the top-ups |
| EscrowRuns.LowCreditSignalsAreBounded | pkg/settlement/escrow.go:129-143 | low-credit broadcasts of a session <= 1 + its top-ups, each at a balance that is not negative and below its price times the configured multiplier |
| EscrowRuns.DrainBroadcastsIff | pkg/settlement/escrow.go:117-143 | in every reachable state: a drain of an active account with a ledger stores deposits plus top-ups less price times verified blocks, floored at zero, and broadcasts exactly that and the price iff it is below price times multiplier and there was no warning since the last top-up |
| EscrowRuns.OtherDrainsDoNothing | pkg/settlement/escrow.go:103-116 | a drain of an account that is not active, or has no ledger, changes nothing |
| EscrowRuns.TrailIsTheOpeningAndTopUps | pkg/settlement/escrow.go:53-72 | what the observer noted for a session is the terms of its opening and the positive amounts paid in since |
| EscrowRuns.AccountKeepsItsTerms | pkg/settlement/escrow.go:53-72 | through everything that follows, an account has the parties and price of its opening, and its initial balance is the deposit plus the positive amounts paid in |
| EscrowRuns.BalanceMoves | pkg/settlement/escrow.go:162-178 | the stored balance starts at the deposit, rises by each positive top-up, and but for drains nothing else changes it |
| EscrowRuns.StatusMoves | pkg/settlement/escrow.go:103-178 | a positive top-up activates from any status, a settlement mark settles, only a drain of an active account expires it, nothing else changes a status; only a positive top-up ends a warning |
| EscrowRuns.DrainExpiresIff | pkg/settlement/escrow.go:145-157 | a drain expires an account iff the balance is gone, or an earlier drain warned, nobody topped up since and the stored grace end has passed |
| EscrowRuns.GraceIsFullIff | pkg/settlement/escrow.go:130-152 | with money left: no expiry without a warning, none before the grace period less one second, always after the full period; never early iff the warning was broadcast on a whole second |
| EscrowRuns.SettledIsFinalIff | pkg/settlement/escrow.go:103-178 | from any state in which an account is settled, every prefix of what follows leaves it settled iff nobody tops it up |
| Settlement.BatchProcessor.ProcessBatch | pkg/settlement/batch.go:43-138 | any missing or failing lookup or a failed broadcast changes no record and no account; success is one broadcast of the messages in input order, their records, and the listed accounts settled |
| Settlement.BatchProcessor.Validate | pkg/settlement/batch.go:52-98 | stops at the first session with a problem, otherwise builds one payout message per session in order |
| Settlement.BatchProcessor.RecordAll | pkg/settlement/batch.go:109-116 | appends one record per message under the batch id and hash, skipping failed writes |
| Settlement.BatchProcessor.MarkSettled | pkg/settlement/batch.go:118-134 | settles exactly the listed accounts whose update succeeds |
| Settlement.BatchProcessor.CloseSession | pkg/settlement/close.go:20-26 | closing one session is a batch of one; an empty session id is refused |
| Settlement.FirstProblemIsFirst | pkg/settlement/batch.go:52-64 | a batch is refused iff the lookups of some listed session do not both find something, for the first such session and its first failing lookup |
| Settlement.SettlementConservesMoney | pkg/settlement/batch.go:66-98 | after any run, the payouts of a batch are the deposits plus the top-ups of the listed sessions plus their overruns |
| Settlement.PaysExactlyTheFundsIff | pkg/settlement/batch.go:71-76 | the payouts are exactly the money put in iff no listed session overran |
| Settlement.IndexerIsPaidPerCleanBlock | pkg/settlement/batch.go:66-98 | the message tells the caller's reason and the number of distinct blocks with a clean comparison result; it pays the indexer one price for each and the host the rest of the balance |
| Settlement.RefundIsTheDrainBalanceIff | pkg/settlement/batch.go:71-76 | the refund is the balance a drain would store iff both prices charge the same or both use up the deposit |
| Settlement.PaysEachAccountOnceIff | pkg/settlement/batch.go:53-98 | a list never pays less than listing each session once, and pays the same iff no session with something to pay out is repeated |
| Settlement.RecordsMatchTheBroadcastIff | pkg/settlement/batch.go:109-116 | the records are the broadcast messages one for one iff no record write failed |
| Settlement.RecordsAreTheWrittenMessages | pkg/settlement/batch.go:109-116 | whatever fails: the records are, in order, the messages whose record could be written, under the batch id and hash |
| Settlement.ListedAccountsSettleIff | pkg/settlement/batch.go:118-134 | every listed account ends settled iff each was already settled or its update succeeded; only the status of those whose update succeeded changes |
| SettlementRuns.EveryAcceptedMentionIsPaid | pkg/settlement/batch.go:53-98 | over any run with deposits, top-ups, drains and verified blocks between batches: the payouts are the sum, over every mention in an accepted list, of what the session has to pay out then |
| SettlementRuns.PaidOnceAcrossBatchesIff | pkg/settlement/batch.go:53-60 | over any such run, no more than first mentions are paid for iff every later mention finds nothing to pay out |
| SettlementRuns.TillIsAMoneyRun | pkg/settlement/batch.go:118-134 | a run with batches moves accounts and ledgers as the money run in which each accepted batch marks its sessions one by one |
| SettlementRuns.EachBatchPaysTheFundsSoFar | pkg/settlement/batch.go:66-98 | each accepted batch of a run pays out deposits plus top-ups plus overruns up to then, whatever earlier batches paid |
| SystemRuns.SystemIsAMoneyRun | pkg/accounting/manager.go:369-423 | every run of submissions, rounds, escrow calls, drains and settlements is a money run over the ledgers the rounds write |
| SystemRuns.SettlementPaysForCleanBlocks | pkg/settlement/batch.go:66-98 | in one run: the message of a session whose ledger was opened in time tells its distinct clean blocks, pays the indexer one price for each, and the host what is left of deposit and top-ups |
| SystemRuns.SystemConservesMoney | pkg/settlement/batch.go:66-98 | in one run: a batch pays out deposits plus top-ups plus overruns of the listed sessions |
| SystemRuns.BalanceCoversCleanBlocks | pkg/settlement/escrow.go:117-122 | in one run on equal terms: the stored balance is at least the deposit less the price of the distinct clean blocks |
| Contradictions.Aggregator.RecordContradiction | pkg/probe/prober.go:171-184 | adds one open contradiction unless its evidence id is already on file |
| Contradictions.Aggregator.CheckAndSlash | pkg/settlement/contradiction.go:77-128 | grouping, threshold, broadcast and resolution equal the fold of group slashes for any listing and iteration order |
| Contradictions.Aggregator.GroupByIndexer | pkg/settlement/contradiction.go:87-91 | the built map holds exactly each named indexer's listed records, in order |
| Contradictions.Aggregator.SlashIndexer | pkg/settlement/contradiction.go:98-127 | below the threshold nothing happens; otherwise one slash citing the whole group, resolved only if accepted |
| Contradictions.Aggregator.MarkResolved | pkg/settlement/contradiction.go:120-125 | resolves exactly the given records whose update succeeds |
| ContradictionRuns.EvidenceIsAccountedFor | pkg/settlement/contradiction.go:77-128 | in every run with arbitrary refusals and orders: accepted slashes cite disjoint evidence, a record is open iff uncited, and threshold times accepted slashes <= contradictions recorded per indexer |
| ContradictionRuns.EveryReachableStateAccounts | pkg/settlement/contradiction.go:77-128 | the invariant behind it is kept by every recording and every check |
| ContradictionRuns.CheckOutcome | pkg/settlement/contradiction.go:98-127 | a check resolves exactly the open records of indexers at the threshold whose slash is accepted: neither order matters |
| ContradictionRuns.AccountingSurvivesACheckIff | pkg/settlement/contradiction.go:120-125 | resolved still means cited after a check iff no cited record's update was lost |
| ContradictionRuns.LostUpdateLeavesOpen | pkg/settlement/contradiction.go:120-125 | a record whose update was lost stays open after its evidence was cited, so far once |
| ContradictionRuns.LostEvidenceIsCitedAgainIff | pkg/settlement/contradiction.go:98-125 | after more recordings, the next check makes a second accepted slash cite it iff the hub accepts that indexer's slash and its open records still reach the threshold |
| Thresholds.RunFilesFailures | pkg/probe/prober.go:171-184 | in every run, the records on file are the failed probes of the run, one for each indexer and millisecond |
| Thresholds.SlashesAreEarned | pkg/settlement/contradiction.go:93-101 | over every run: the accepted slashes of an indexer, times the configured threshold, or three if that is not positive, are at most its failed probes at different milliseconds |
| Thresholds.CheckAttemptsIff | pkg/settlement/contradiction.go:77-128 | one check attempts one slash of exactly each indexer whose open records number at least the configured threshold, or three; it cites exactly them and is accepted as the hub answers, whatever the two orders |
| RateLimit.TokenBucket.Take | pkg/api/middleware/ratelimit.go:31-43 | refills lazily, caps at burst, takes one token if there is one |
| RateLimit.RateLimiter.ConsumeToken | pkg/api/middleware/ratelimit.go:22-44 | serves one key from its own bucket object, created full on first use, and leaves every other bucket alone |
| RateLimit.RateLimiter.Admit | pkg/api/middleware/ratelimit.go:65-86 | charges a request to the key of its token |
| RateLimit.TokensOfAPeerShareAKey | pkg/api/middleware/ratelimit.go:69-78 | all three-part tokens of one peer share a bucket whatever their other parts |
| RateLimit.ShortTokensAreTheirOwnKey | pkg/api/middleware/ratelimit.go:69-78 | a token of one or two parts is its own key |
| RateLimitRuns.TokensAreTheTightestWindow | pkg/api/middleware/ratelimit.go:31-43 | the tokens on hand are the minimum, over all windows ending now, of burst plus refill less admissions |
| RateLimitRuns.AdmittedIffEveryWindowAllows | pkg/api/middleware/ratelimit.go:31-43 | a request is admitted iff every window it ends stays within burst plus refill |
| RateLimitRuns.TokensStayInRange | pkg/api/middleware/ratelimit.go:31-43 | tokens stay between zero and burst |
| RateLimitRuns.AdmittedInWindowIsBounded | pkg/api/middleware/ratelimit.go:22-44 | every window ending at the last request admits at most burst plus rate times its length |
| RateLimitRuns.EveryWindowOfEveryKeyIsBounded | pkg/api/middleware/ratelimit.go:22-44 | the same for every window of every key in a run that mixes keys |
| RateLimitRuns.AllAdmittedIff | pkg/api/middleware/ratelimit.go:31-43 | nothing is refused iff the arrivals themselves fit every window |
| RateLimitRuns.SpacedRequestsAreAdmitted | pkg/api/middleware/ratelimit.go:31-43 | requests at least 1/rate apart are never refused when burst >= 1 |
| RateLimitRuns.RefillSplits | pkg/api/middleware/ratelimit.go:31-38 | settling the refill anywhere in an idle gap changes no later token count |
| RateLimitRuns.RefusedRequestsLeaveNoTrace | pkg/api/middleware/ratelimit.go:31-43 | deleting any refused requests changes no other decision |
| RateLimitRuns.KeysDoNotInterfere | pkg/api/middleware/ratelimit.go:22-30 | in a mixed run each key gets the bucket and decisions it would get alone |
| Pricing.ClearingIsBetweenIff | pkg/discovery/pricing.go:9-14 | the clearing price is between ask and bid iff ask <= bid |
| Pricing.ClearingFallsWithReliability | pkg/discovery/pricing.go:5-14 | the price moves from bid towards ask as reliability grows and is the midpoint at 1 |
| Discovery.FindForTip | pkg/discovery/query.go:79-146 | returns a ranked top selection of the pool of eligible indexers, of the length the limit dictates |
| Discovery.CollectCandidates | pkg/discovery/query.go:90-108 | the first pass keeps exactly the survivors and their largest tip |
| Discovery.PassesFilters | pkg/discovery/query.go:91-100 | staleness, minimum reliability and price, in order, decide survival of the first pass |
| Discovery.ExcludeLaggards | pkg/discovery/query.go:109-114 | the second pass drops exactly those whose 64-bit difference to the reference tip exceeds the threshold |
| Discovery.BuildTipMatches | pkg/discovery/query.go:119-134 | one weighted and priced match per remaining indexer |
| Discovery.LoadDiversityMap | pkg/discovery/query.go:229-248 | the loop over the history computes the latest readable match per indexer; none for a missing or empty history |
| Discovery.Latest | pkg/discovery/query.go:237-247 | every entry is a match of the history and no later one exists for its indexer; every indexer with a readable match has one |
| Discovery.LatestIsUnique | pkg/discovery/query.go:237-247 | that determines the map, so the order of the history does not matter |
| Discovery.SortMatches | pkg/discovery/query.go:135-141 | a ranked rearrangement |
| Discovery.InsertMatch | pkg/discovery/query.go:135-141 | inserting one match keeps a ranked list ranked |
| Discovery.SortedPrefixIsTop | pkg/discovery/query.go:135-146 | truncating a ranked rearrangement keeps a top selection: nothing omitted outranks anything kept |
| Discovery.ReferenceTip | pkg/discovery/query.go:90-108 | the reference is the maximum tip of the survivors, or 0 |
| Discovery.TipPoolIsExactlyTheEligible | pkg/discovery/query.go:90-134 | the pool holds a match for every indexer that survives the first pass and is within the threshold, or so far behind that the 64-bit difference wraps, and for no other |
| Discovery.LagFilterIsSoundIff | pkg/discovery/query.go:109-114 | with the filter on, everyone in the pool is within the threshold iff no survivor is more than the largest 64-bit integer behind |
| Discovery.TipAnswerIsEmptyIff | pkg/discovery/query.go:109-146 | the answer is empty iff nobody survived, or the lag filter is on and every survivor's tip is below minus the threshold and is not the smallest 64-bit integer |
| Discovery.FindForSnapshot | pkg/discovery/query.go:151-209 | returns a truncation of the ranked holders followed by the ranked fallbacks |
| Discovery.SplitTiers | pkg/discovery/query.go:163-192 | the single loop splits the offered indexers into holders and fallbacks |
| Discovery.BuildSnapshotMatch | pkg/discovery/query.go:163-192 | the weighted and priced match with its overlapping ranges |
| Discovery.HoldersComeFirst | pkg/discovery/query.go:194-209 | holders precede fallbacks, each tier is ranked, and a fallback appears only if all holders do |
| Discovery.EachTierIsTheTopOfItsPool | pkg/discovery/query.go:194-209 | the limit is spent on the best holders, what remains on the best fallbacks |
| Discovery.OverlapMeansSharedBlock | pkg/discovery/query.go:269-284 | two ranges share a block iff the overlap test passes and neither is inverted |
| Discovery.BlockHoldersComeFirst | pkg/discovery/query.go:151-209 | for well-formed ranges, every indexer sharing a block with the query precedes every one that shares none, and one that shares none appears only if all offered ones that do appear |
| Discovery.WeightIsAFraction | pkg/discovery/diversity.go:5-15 | the weight grows with time since the last match, from 0.1 at once to 1 exactly from the window on |
| Discovery.DiversityNeverPromotes | pkg/discovery/query.go:252-265 | weighting never raises a score that is not negative, and lowers a positive one iff the pool is larger than three and the last match is inside the window |
| Discovery.OfferedPricesClear | pkg/discovery/pricing.go:18-61 | an offered price is between ask and bid iff the budget is positive or the ask does not exceed it |
| Offers.TipAnswer | pkg/discovery/query.go:79-146 | from the columns and the match history: a tip answer is taken from one offer for each indexer that is timely, reliable enough, affordable and not too far behind; as long as the limit says, ordered by score and then tip, and nothing left out is better |
| Offers.SnapshotAnswer | pkg/discovery/query.go:151-209 | likewise for snapshots: the offers of the candidates with a range that meets the query by score, then those of the others by score, up to the limit |
| Offers.EligibleAreKept | pkg/discovery/query.go:89-114 | the two passes keep exactly the indexers that meet the conditions on their columns, in store order |
| Offers.TierIsOffers | pkg/discovery/query.go:163-192 | each tier holds one offer for each candidate that has, or has no, range meeting the query, in store order |
| Offers.RecencyIsLastMatch | pkg/discovery/query.go:229-248 | the time an offer is weighted by is the latest readable match of the history with that indexer |
| Offers.DiversityScores | pkg/discovery/query.go:252-265 | in a pool of more than three, an indexer matched within the window scores reliability times 0.1 plus 0.9 of the elapsed share of the window; any other scores its reliability |
| Offers.RecentScoresLower | pkg/discovery/diversity.go:5-15 | of two equally reliable indexers, the one matched within the window scores strictly lower |
| Offers.RecentlyMatchedYield | pkg/discovery/query.go:116-146 | so in a tip answer from a pool of more than three it never precedes the other |
| Offers.RecentlyMatchedYieldInTheirTier | pkg/discovery/query.go:194-209 | nor in its tier of a snapshot answer |
| Offers.MatchesClear | pkg/discovery/pricing.go:9-61 | tips clear between the price and budget per thousand blocks, snapshots between those per range; without price or budget the price is 0 |
| ProbeHistory.SortProbeResultsAsc | pkg/store/probe_store.go:111-117 | the in-place swap sort yields a sorted array in which records of equal time keep their order |
| ProbeHistory.InsertDown | pkg/store/probe_store.go:112-116 | the inner loop extends the sorted prefix by one, stably |
| ProbeHistory.SwapWithPrevious | pkg/store/probe_store.go:114 | one swap moves the unsettled record down by one and reorders no records of one instant |
| ProbeHistory.StableSortIsUnique | pkg/store/probe_store.go:111-117 | sorted and stable determines the result completely |
| ProbeHistory.ProbeStore.Insert | pkg/store/probe_store.go:17-29 | appends one record under a new document id |
| ProbeHistory.ProbeStore.ListByIndexer | pkg/store/probe_store.go:31-38 | exactly one indexer's records, in whatever order the store walks its documents |
| ProbeHistory.ProbeStore.PruneOldest | pkg/store/probe_store.go:41-62 | deletes exactly the records beyond the limit that come first in the stable sort of the listing, for every listing order |
| ProbeHistory.ProbeStore.SortAndDelete | pkg/store/probe_store.go:50-60 | sorts the listed records in place and deletes all but the last of them, as many as the limit |
| ProbeHistory.ProbeStore.RecentSuccessRate | pkg/store/probe_store.go:66-91 | the share of successes among the newest records for every listing order; 0 without records, not a number for a limit of zero, a panic for a negative one |
| ProbeHistory.RateIsTheShareOfTheNewest | pkg/store/probe_store.go:66-91 | the rate is the share of successes in a newest selection of all records, as large as the limit allows, and lies in [0,1] |
| ProbeHistory.PruneKeepsTheNewest | pkg/store/probe_store.go:41-62 | as multisets: the kept records are among the original, min(length, limit) of them, and no kept one is older than any other original, whatever the listing order |
| ProbeHistory.LeavesTheRest | pkg/store/probe_store.go:53-60 | deleting the first m records of a rearrangement by document id leaves exactly the multiset of the others |
| ProbeHistory.WalksDisagreeOnlyOnTies | pkg/store/probe_store.go:41-62 | two listing orders can only exchange a kept record for a deleted one of the same instant |
| ProbeTies.ListingIsIrrelevantIff | pkg/store/probe_store.go:41-62 | every listing order leaves the same records iff there is no instant with fewer newer records than the limit and more newer and equal ones than the limit |
| ProbeTies.StraddleMatters | pkg/store/probe_store.go:111-117 | when an instant straddles the limit, there are two listing orders that leave different records |
| ProbeRuns.HistoryIsTheNewestOfAll | pkg/probe/prober.go:131-146 | after any run of probes, an indexer's history is a newest selection, as large as the limit allows, of everything ever recorded for it |
| ProbeRuns.NewestOfNewest | pkg/store/probe_store.go:41-62 | pruning what was kept and a new record is pruning everything: a record deleted before stays deleted |
| ProbeHistory.PruneTouchesNobodyElse | pkg/store/probe_store.go:41-62 | other indexers' records are untouched, in order |
| Timestamps.CalendarRoundTrip | pkg/probe/prober.go:134 | every second before year 10000 is one valid calendar time and converts back to itself |
| Timestamps.DaysBeforeYearClosedForm | pkg/probe/prober.go:134 | the days before a year follow the Gregorian leap rule, in closed form |
| Timestamps.FormatReadsBack | pkg/probe/prober.go:134 | a written time has the RFC 3339 layout, and reading its fields gives the date and time back |
| Timestamps.EarlierIffFewerSeconds | pkg/probe/prober.go:134 | calendar order is order of seconds |
| Timestamps.FormatOrder | pkg/store/probe_store.go:113 | byte-wise order of two written times is calendar order |
| Timestamps.StringOrderIsChronological | pkg/store/probe_store.go:113 | the string order the sort relies on is chronological, and equal strings mean equal seconds |
| Reliability.ScoreClosedForm | pkg/discovery/scorer.go:18-25 | the folded score is 0.9^n times the start plus every success weighted by its age |
| Reliability.ScoreStaysInRange | pkg/discovery/scorer.go:18-25 | a start in [0,1] stays in [0,1] |
| Reliability.ScoreIsMonotone | pkg/discovery/scorer.go:18-25 | a pointwise better history from no worse a start never scores lower |
| Reliability.TrailingFailuresScale | pkg/discovery/scorer.go:18-25 | k failures in a row scale the score by 0.9^k |
| Reliability.TrailingFailuresBound | pkg/discovery/scorer.go:18-25 | so they force it to at most 0.9^k |
| Prober.Prober.ProbeOne | pkg/probe/prober.go:126-169 | one probe inserts and prunes, updates score, tip, heartbeat and status, and records a contradiction iff a declared snapshot went unanswered; the history ends within the limit whatever it was before, and nobody else's changes |
| Prober.Prober.RecordProbe | pkg/probe/prober.go:131-146 | the history part of a probe: insert, then prune to the limit; one step of the runs in ProbeRuns |
| Prober.Prober.UpdateReliability | pkg/registry/indexer_registry.go:163-173 | the new score, status, tip and heartbeat of the probed indexer |
| Prober.HistoryStaysBounded | pkg/probe/prober.go:131-146 | inserting one record and pruning brings the indexer's history within the limit and leaves all others as they were |
| Prober.OlderMeansEarlier | pkg/store/probe_store.go:113 | for written records, older in the store means earlier in time |
| Prober.ScoreIsTheFold | pkg/probe/prober.go:148 | the stored score is the fold over all probe outcomes, pruned ones included; heartbeats and registrations do not change it |
| Prober.DeactivatedIffUnseen | pkg/probe/prober.go:150-159 | over runs of probes, heartbeats and registrations: a probe marks an active indexer inactive iff it comes too late after the latest probe or heartbeat, whatever was found |
| Prober.HeartbeatIsLastSeen | pkg/registry/indexer_registry.go:111-173 | the heartbeat column holds the whole second of the latest probe or heartbeat |
| Prober.TipIsLastTold | pkg/registry/indexer_registry.go:111-173 | the stored tip is what the latest probe or heartbeat told, 0 for a probe without an answer; only heartbeats declare snapshots |
| Prober.StatusMoves | pkg/registry/indexer_registry.go:111-173 | heartbeats and registrations activate, a deregistration deactivates, a probe never activates |
| Prober.UnansweredProbesKeepActiveIff | pkg/registry/indexer_registry.go:163-173 | an indexer that only the prober sees stays active iff no probe comes too late after the one before, even if it never answers |
| Subscriptions.SubscriptionManager.Create | pkg/subscription/manager.go:55-106 | validation in order, then one pending subscription under a new id |
| Subscriptions.SubscriptionManager.Activate | pkg/subscription/manager.go:112-138 | only a pending subscription becomes active, with payment reference, time and expiry |
| Subscriptions.SubscriptionManager.Cancel | pkg/subscription/manager.go:140-156 | cancels unless already expired or cancelled |
| Subscriptions.SubscriptionManager.ExpireOverdue | pkg/subscription/manager.go:201-224 | expires exactly the active subscriptions past a readable expiry, in any listing order |
| EpochActivation.HubSubscriber.Dispatch | pkg/payment/shinzohub.go:152-218 | handles the events of a transaction in order |
| EpochActivation.HubSubscriber.HandleEvent | pkg/payment/shinzohub.go:165-218 | a complete creation event waits for an epoch or activates at once, an expiry event cancels, anything else is ignored |
| EpochActivation.HubSubscriber.AttributeOf | pkg/payment/shinzohub.go:296-304 | the last attribute of a name wins |
| EpochActivation.HubSubscriber.Poll | pkg/payment/shinzohub.go:222-240 | a waiter activates and ends once the observed height reaches its target; a failed query changes nothing |
| EpochActivation.DispatchIsARun | pkg/payment/shinzohub.go:152-218 | a dispatched transaction equals its events observed one by one in a run |
| EpochActivation.ActivatedAtMostOnce | pkg/subscription/manager.go:112-138 | however payments, waiters, cancellation and expiry race: at most one activation per subscription, its payment reference kept, nothing active or expired without one |
| EpochActivation.TheEndIsFinal | pkg/subscription/manager.go:140-156 | a cancelled or expired subscription never changes again; a payment reference is kept for ever |
| EpochActivation.OnChainActivationsWait | pkg/payment/shinzohub.go:222-240 | on-chain activations happen at once only without an epoch or height, otherwise only at an observed height that reached the computed target |
| EpochActivation.EpochIsRespectedIff | pkg/payment/shinzohub.go:222-240 | every run waits a full epoch for the events of a height iff height plus epoch size does not overflow 64 bits |
| EpochActivation.EarlyActivation | pkg/payment/shinzohub.go:222-240 | when the sum wraps, there is a run that activates at the event's own height |
| EpochActivation.TooEarly | pkg/payment/shinzohub.go:222-240 | such an activation has not waited an epoch |
| Lifecycles.CreationAnswers | pkg/subscription/manager.go:226-244 | exactly when a creation is refused and for which of the seven reasons; otherwise the subscription is pending, unpaid, without expiry and as requested |
| Lifecycles.SubscriptionsComeFromRequests | pkg/subscription/manager.go:55-106 | in every run, each subscription has the parties, type and range of a sound request made while its indexer was available, and is blank for as long as it is pending |
| Lifecycles.PaymentActivates | pkg/subscription/manager.go:112-138 | in every reachable state, a payment activates the pending subscription it names with its own reference and expiry at the second of the call, and does nothing else |
| Lifecycles.UnderstoodIff | pkg/payment/shinzohub.go:165-218 | an event announces a subscription iff its last data attribute decodes and lacks nothing, and ends one iff it is an expiry event whose last id attribute is not empty |
| Lifecycles.AnnouncementWaitsOrActivates | pkg/payment/shinzohub.go:165-218 | in every reachable state, an announcement adds one waiter for the 64-bit sum of height and epoch size, or with either not positive activates at once with its expiry |
| Lifecycles.PollFiresIff | pkg/payment/shinzohub.go:222-240 | in every reachable state, a poll that sees the target activates with the expiry of the waiter's event and removes that waiter; any other changes nothing |
| Lifecycles.CancellationAnswers | pkg/subscription/manager.go:140-156 | cancelling succeeds on pending and active subscriptions only, and fails as unknown or over on the rest |
| Lifecycles.HubExpiryCancels | pkg/payment/shinzohub.go:206-217 | an expiry event of the hub cancels the pending or active subscription it names and changes nothing else; an event that is neither does nothing |
| Lifecycles.TickExpiresTheOverdue | pkg/subscription/manager.go:201-224 | a tick expires exactly the active subscriptions whose readable expiry is before now; none is left active |
| Lifecycles.ExpiredWasOverdue | pkg/subscription/manager.go:201-224 | in every run, whatever has expired had a readable expiry, and the run holds a tick after it |
| Lifecycles.FirstEndingDecides | pkg/subscription/manager.go:140-224 | through any continuation, an active subscription ends with the first event that asks to cancel it or ticks past its readable expiry, and as that event says; without one it is unchanged |
| Witnesses.ForgedDelivery | pkg/accounting/manager.go:332-345 | claiming one CID twice and attesting another one is clean |
| Witnesses.CleanBlockMissedByLateLedger | pkg/accounting/manager.go:288-290 | a block compared before the ledger opens is clean and not counted |
| Witnesses.DirectCompareCountsTwice | pkg/accounting/manager.go:288-290 | one clean block compared again directly is counted twice |
| Witnesses.WindowCutShort | pkg/accounting/manager.go:360-367 | a window of 60 seconds that closes one nanosecond after 59 |
| Witnesses.SettledAccountReactivated | pkg/settlement/escrow.go:170-177 | a top-up makes a settled account active |
| Witnesses.SettledAccountPaidAgain | pkg/settlement/batch.go:53-60 | a session of ten is settled, topped up by five and settled again: 25 are paid out of 15 |
| Witnesses.ListedTwicePaidTwice | pkg/settlement/batch.go:53-98 | a session of ten listed twice in one batch is paid twenty |
| Witnesses.WritesLost | pkg/settlement/batch.go:109-134 | a broadcast payout without a record, and its account still active |
| Witnesses.OverrunPaidBeyondDeposit | pkg/settlement/batch.go:71-76 | twelve blocks at one are paid from a deposit of ten |
| Witnesses.RefundBelowDrainedBalance | pkg/settlement/batch.go:71-76 | with different prices the refund is two and the drained balance six |
| Witnesses.GraceCutShort | pkg/settlement/escrow.go:130-152 | a grace period of 60 seconds that ends after 59 seconds and two nanoseconds |
| Witnesses.EvidenceCitedAgain | pkg/settlement/contradiction.go:120-125 | two accepted slashes cite the one record whose update was lost |
| Witnesses.ZeroBudgetClearsBelowAsk | pkg/discovery/pricing.go:24-28 | an ask of five passes a budget of zero and clears at two and a half |
| Witnesses.NegativeTipsExcludeEverybody | pkg/discovery/query.go:89-114 | the only survivor of the first pass lags behind the reference tip 0 |
| Witnesses.SmallestTipIsKept | pkg/discovery/query.go:110 | the smallest tip passes the lag filter that a tip of -10 does not |
| Witnesses.ListingDecidesTie | pkg/store/probe_store.go:111-117 | of two records of one instant and a limit of one, the listing decides which stays |
| Witnesses.UnansweredButActive | pkg/probe/prober.go:150-159 | two unanswered probes in time leave an indexer active with tip 0 |
| Witnesses.EpochWrapsAround | pkg/payment/shinzohub.go:222-240 | at the largest height an epoch of one block is over at once |

## Left out

- GraphQL, JSON and the DefraDB client: I/O over an unseen database.
- HTTP handlers, routing, configuration and logging: plumbing.
- Tokens, signatures and hashing in `pkg/auth`: foreign cryptography.
- Tendermint RPC, WebSocket and `/health` clients: replaced by arbitrary answers.
- Goroutine tickers and shutdown; interleavings inside one read-then-write of a store (two ledger updates, two activations or two probes of one indexer at the same time).
- `escalateExpiredUnderReports` and the escalation callback on a mismatch: they re-fire on purpose each round and change no record.
- `VerdictManager`, `CrossCheckHost` and `ApplyTipCurrencyPenalty`: single-branch updates and counts.
- Of the registry, only what heartbeats, re-registration and deregistration write to the columns the prober reads is modelled, as events of a run; their checks of tokens and signatures are not.
- Match-history recording in subscription `Create`, the free text of slash reasons, the spelling and joining of evidence ids, settlement ids and times, the URL and address fields of matches: carried along by the program and never read by the logic modelled here.
- Rate limiting by IP address: the same bucket with another key.
- In a batch, a store access fails for a session or not: a session listed twice does not fail once and succeed once.
- The store's own failures outside settlement, the marking of contradictions and the diversity lookup; there writes succeed.
- `float64` rounding, and years after 9999 in timestamps.
- Discovery.SortMatches: does not fix the order of equally ranked matches, because the sort the program calls is not stable; every theorem holds for any order of ties.
- ProbeHistory.ProbeStore.PruneOldest: takes a limit of at least zero, because on a negative one the program slices past the end of the list, and what happens then depends on the spare capacity of the decoded slice.
- Settlement.PaysEachAccountOnceIff: is about sessions whose deposit or cost is not negative; with negative prices and deposits repeats could cancel out.
- SettlementRuns.PaidOnceAcrossBatchesIff: likewise is about runs in which no accepted mention has a negative amount.
- RateLimitRuns.AdmittedInWindowIsBounded: is about a clock that does not run backwards, as Go's monotonic clock readings do not; AdmittedIffEveryWindowAllows needs no such condition.
