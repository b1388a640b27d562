# PayRescue NG: a verified model of its state machines, matcher, limiters and money text

PayRescue is a backend for disputing failed payments. This project models the parts of it that are
more than table access, and proves what they guarantee over every input and every run:

- **Rescue cases** (`Cases`, `CaseRuns`, `CaseSerial`, `CaseServices`): seven kinds of database
  transaction write a case row, its timeline and its event log. The timeline replays to the row in
  every interleaving; in serial runs the event log, the escalation level and the notifications are
  functions of the timeline as well. The SLA sweep strikes exactly the overdue cases and reaches a
  fixpoint. Where a read made before a transaction goes stale, the exact condition under which a law
  survives is proved beside a run in which it fails.
- **Ledger and verification** (`Ledger`): the append-only log explains every transaction row, and a
  payment request is fulfilled exactly when a confirmed verification names it, which is backed by a
  transaction of the same merchant that was in SUCCESS.
- **Reconciliation and overview** (`Money`, `Settlement`, `Reconciliation`, `Analytics`): the last-wins index
  and the counting loop against a per-claim answer by plain scans; what the overview's sums add up to.
- **Fixed-window limiters** (`FixedWindow`, `RateLimiter`, `ApiKeys`): exactly how many requests any
  interval can let through, when one is refused, and that deleting stale buckets is invisible.
- **Money text** (`Text`, `Regex`, `Nigeria`, `Ocr`, `Settlement`): the naira printer against the two
  parsers, over a backtracking matcher in the sense of section 22.2.2 of ECMA-262.
- **Protocol-like stores** (`Sessions`, `Idempotency`, `Billing`): refresh-token rotation and password
  resets, replay of stored responses, and redelivered payment webhooks.
- **Paging** (`Paging`): the pages of a list are the list.

## How it is modelled

A service is a class whose fields are its tables; a method is the service's method, step by step, and
is proved against the function that its database transaction is on table values (`Commit`, `Settle`,
`Handle`, ...). Runs are sequences of steps over those functions. Where the code reads rows before it
opens its transaction, what was read travels in the operation; a run may put any other steps between
the read and the commit, or lose the operation to a crash. A serial run is one in which nothing comes
in between; `CaseSerial.SweepIsARun`, `CaseSerial.OneIsARun` and `Ledger.ServeIsStartFinish` show that
serial requests are such runs, as `Sessions.Serve` and `Billing.SettleIsARun` do for their services.

Rows are never deleted by this code (idempotency records and limiter buckets excepted), so a row's id
is its position in its table. Money is exact: `real` naira in the ledger and in matching, whole kobo
in billing and printing, mantissa and scale for parsed text. Time is a millisecond count that does not
run backwards; one transaction happens at one instant. Randomness and the network are parameters: new
session and reset tokens are values never used before, the malware verdict and the token signature
check are inputs, and the hash of an API key is an arbitrary function.

## What the code does otherwise than its documentation says

- The comment at `src/modules/ocr/ocr.service.ts:22` promises `NGN 15000`; the pattern reads 150. Its
  second alternative never decides anything (`SecondAlternativeNeverWins`), and an ungrouped amount is
  read back exactly when it is below 1000 (`UngroupedAmountIsReadBackUnderAThousand`). In the narration
  pattern `Description` is likewise shadowed by `Desc` (`DescriptionNeverWins`).
- `docs/ARCHITECTURE.md:10-11` promises one case for one transaction; nothing enforces it
  (`OneCaseExactlyWhenOpenedOnce`). Its lifecycle diagram (lines 54-74) is not enforced either: every
  operation but evidence leaves it from some status (`LifecycleKeptExactlyWhen`), the sweep unless the
  case is PENDING (`SweepFollowsTheLifecycleExactlyWhenPending`).
- A confirmation may rest on a SUCCESS that was only claimed, when a caller of the service captured it
  under the merchant's id; without that id, as on a route without business context, a capture is never
  found (`SelfClaimConfirms`, `ForeignTransactionIsNeverFound`).
- A replayed response may have been made for another route: the stored path is never compared
  (`src/middleware/idempotency.ts:44`, `OwnRouteKeptExactlyWhen`).
- A payment request whose expected amount is stored as 0.00 is confirmed by any settled transaction
  (`AmountCheckedExactlyWhenNonZero`). The request schema asks for a positive number, but a positive
  number below half a kobo becomes 0.00 in the column.
- The comment at `src/middleware/apiKey.ts:23` calls the counter a sliding window; it is a fixed one,
  and an interval of one window sees almost twice the limit in some history unless the limit is 1
  (`SlidingExactlyForLimitOne`).
- A bank debit with a minus sign is cleaned to a positive amount (`SignDecidesTheRoundTrip`).

## Model

| member | source | states |
|---|---|---|
| `FixedWindow.IntervalIsBounded` | src/middleware/rateLimiter.ts:32-47 | In a closed interval of any length one key gets no more than the ceiling through, for all request histories |
| `FixedWindow.AtMostOneExtraWindow` | src/middleware/rateLimiter.ts:32-47 | In terms of k windows: at most (k+1)*max requests, and one less for 1 <= k <= windowMs |
| `FixedWindow.CeilingIsReached` | src/middleware/rateLimiter.ts:34-39 | For every limit, window and interval some history gets exactly the ceiling through |
| `FixedWindow.PromisedExactlyFromTheCeilingOn` | src/middleware/rateLimiter.ts:32-47 | A bound holds of all intervals of a length in all histories if and only if it is at least the ceiling |
| `FixedWindow.SlidingExactlyForLimitOne` | src/middleware/apiKey.ts:23-72 | Intervals of at most one window let at most `max` through in all histories if and only if `max` is 1 or the interval is an instant |
| `FixedWindow.BucketMeaning` | src/middleware/rateLimiter.ts:34-46 | A bucket's count is the number let through since the request that opened the window, and its reset time that request's time plus the window |
| `FixedWindow.RefusedExactlyWhenWindowFull` | src/middleware/rateLimiter.ts:42-44 | A request is refused if and only if the last opened window has not passed and has let through its limit already |
| `FixedWindow.RefusedAfterExactlyMax` | src/middleware/rateLimiter.ts:42-46 | Under one constant limit a refusal means exactly that many were let through in the window |
| `FixedWindow.SharedMapIsPerKeyHistory` | src/middleware/rateLimiter.ts:10-47 | The shared mutable map, cleaned at arbitrary moments, decides each request as the key's own history does |
| `FixedWindow.CleanupIsInvisible` | src/middleware/rateLimiter.ts:13-20 | Leaving out all cleanups changes no decision |
| `FixedWindow.LimiterBoundsEveryKey` | src/middleware/rateLimiter.ts:22-48 | Over any run with many keys and cleanups each key stays within the ceiling for its own limit in every interval |
| `RateLimiter.IpRateLimiter.Limit` | src/middleware/rateLimiter.ts:23-48 | One request: the decision and the new map are those of the specification |
| `RateLimiter.IpRateLimiter.CleanUp` | src/middleware/rateLimiter.ts:13-20 | The timer loop removes exactly the buckets whose window has passed |
| `ApiKeys.GateBoundsEveryKey` | src/middleware/apiKey.ts:62-72 | Over any run of attempts, with limits that may change, a key stays within the ceiling of its own largest limit in every interval, whatever the limits of other keys |
| `ApiKeys.PresentedInFields` | src/middleware/apiKey.ts:29-36 | A bearer token that starts with `pr_` is read up to the next space; otherwise the header counts |
| `ApiKeys.ApiKeyGate.RequireApiKey` | src/middleware/apiKey.ts:29-83 | The checks in order: no key, unknown or inactive, expired before now, neither the scope nor `*`; an attempt they turn away leaves the counters alone, any other is counted against its own key |
| `Regex.FoundSomewhere` | src/modules/ocr/ocr.service.ts:25-26 | A search reports the leftmost position that captures and fails only if there is none |
| `Nigeria.CleanedPlainParses` | src/utils/nigeria.ts:40-47 | Any cleaning that keeps digits and dots and drops commas turns a printed amount into text that parses to exactly that many kobo |
| `Nigeria.FormatNairaExamples` | src/utils/nigeria.ts:36-47 | The printed form of three amounts, character by character |
| `Nigeria.NormalizeIsIdempotent` | src/utils/nigeria.ts:13-25 | A normalised phone number is a fixed point |
| `Nigeria.SpellingsAgree` | src/utils/nigeria.ts:7-25 | The local, international and E.164 spellings of one number normalise to the same text |
| `Nigeria.NormalizeInFields` | src/utils/nigeria.ts:13-25 | Which prefix of the number without its punctuation leads to which text |
| `Nigeria.ValidExactlyWhenSpelled` | src/utils/nigeria.ts:30-34 | A number is valid if and only if, without its punctuation, it is one of the three spellings of a subscriber number |
| `Ocr.SecondAlternativeNeverWins` | src/modules/ocr/ocr.service.ts:24-25 | On every text the amount pattern finds the same span with its second alternative removed |
| `Ocr.FoundAmountIsANumber` | src/modules/ocr/ocr.service.ts:25-32 | The captured text is a number whenever the pattern is found |
| `Ocr.CapturedExactlyWhenNumberFollows` | src/modules/ocr/ocr.service.ts:25-26 | The amount pattern captures at a position if and only if a keyword stands there and, after separators, a digit follows |
| `Ocr.PrintedAmountIsReadBack` | src/modules/ocr/ocr.service.ts:24-28 | A printed naira amount inside any text, where no number follows an earlier keyword, is read back exactly, up to its sign |
| `Ocr.LabelledAmountIsReadBack` | src/modules/ocr/ocr.service.ts:24-28 | A printed amount after `Amount: ` is read back exactly |
| `Ocr.UngroupedAmountIsReadBackUnderAThousand` | src/modules/ocr/ocr.service.ts:22-28 | A whole amount without commas after `NGN `, inside any text where no number follows an earlier keyword and the numeral ends, comes back if and only if it is below 1000 |
| `Ocr.FifteenThousandIsReadAsOneHundredAndFifty` | src/modules/ocr/ocr.service.ts:22-28 | The example of the comment is read as 150 |
| `Ocr.SessionNumberIsTheReference` | src/modules/ocr/ocr.service.ts:37-42 | The first 30-digit number standing alone is the reference, whatever else the text holds |
| `Ocr.LabelledExactlyWhenReferenceFollows` | src/modules/ocr/ocr.service.ts:38-46 | The labelled pattern captures at a position if and only if a label stands there and, after separators, ten reference characters follow |
| `Ocr.ReferenceIsWellFormed` | src/modules/ocr/ocr.service.ts:36-51 | A reference is such a session number, or, if there is none, 10 to 32 reference characters |
| `Ocr.LabelledReferenceIsRead` | src/modules/ocr/ocr.service.ts:38-46 | A run of 10 to 32 reference characters after the first label that leads to one is the labelled reference |
| `Ocr.DescriptionNeverWins` | src/modules/ocr/ocr.service.ts:97-100 | On every text the narration pattern finds the same span without its alternative `Description` |
| `Ocr.NarrationIsRead` | src/modules/ocr/ocr.service.ts:97-101 | The narration is the trimmed rest of the line after the first such word and its separators |
| `Ocr.DateIsRead` | src/modules/ocr/ocr.service.ts:84-93 | The first date of either form, if no digit stands before it, is what the date parser is given |
| `Ocr.RecogniseBank` | src/modules/ocr/ocr.service.ts:53-82 | The loop finds the first bank of the list that the text mentions as a word, or none if none is |
| `Ocr.MentionsInFields` | src/modules/ocr/ocr.service.ts:77-82 | A bank is mentioned if and only if its name stands somewhere, in any letter case, with no word character next to it |
| `Ocr.ParseFinancialText` | src/modules/ocr/ocr.service.ts:18-113 | Every field, the date through the host's parser, one warning per missing amount or reference, confidence 85 less 20 per warning, and manual verification always |
| `Settlement.Column` | src/modules/reconciliation/reconciliation.service.ts:23-34 | The first listed column that is present and not empty |
| `Settlement.RowInFields` | src/modules/reconciliation/reconciliation.service.ts:21-36 | The columns each part of a row is read from, in order of preference |
| `Settlement.PrintedAmountIsCleaned` | src/modules/reconciliation/reconciliation.service.ts:25-27 | A printed amount in any decoration without digits and dots is cleaned to exactly that amount, up to its sign |
| `Settlement.NoAmountIsZero` | src/modules/reconciliation/reconciliation.service.ts:25-27 | A cell without digits and dots counts as zero |
| `Settlement.SignDecidesTheRoundTrip` | src/modules/reconciliation/reconciliation.service.ts:27 | Print and clean is the identity if and only if the amount is not negative |
| `Settlement.PrintedFileIsReadBack` | src/modules/reconciliation/reconciliation.service.ts:21-36 | A file of printed amounts is read back to the kobo, row by row and in total |
| `Money.WithinMeansSameKobo` | src/modules/reconciliation/reconciliation.service.ts:87 | On whole kobo the 0.01 tolerance is equality |
| `Reconciliation.LastMeans` | src/modules/reconciliation/reconciliation.service.ts:56-59 | The index answers with the last ledger row of a reference, and no row only if there is none |
| `Reconciliation.FirstMeans` | src/modules/reconciliation/reconciliation.service.ts:118-120 | The fallback answers with the first row within tolerance |
| `Reconciliation.StatusMeans` | src/modules/reconciliation/reconciliation.service.ts:83-146 | Each status told from the ledger alone, and a transaction id exactly when not UNMATCHED |
| `Reconciliation.ResultInFields` | src/modules/reconciliation/reconciliation.service.ts:83-146 | A result repeats the claim's reference and amount; it is MATCHED or a MISMATCH as the last row with the reference is within 0.01 of the claimed amount or not, with the amounts to show for it; confidence is 99, 70, 45 or 0 by status |
| `Reconciliation.ResultNamesARow` | src/modules/reconciliation/reconciliation.service.ts:90-134 | A result repeats id, reference and amount of one ledger row that explains its status |
| `Reconciliation.ConfirmedUnlessHidden` | src/modules/reconciliation/reconciliation.service.ts:56-59 | A claim that some row meets is MATCHED if and only if the last row with its reference meets it too |
| `Reconciliation.HiddenMatch` | src/modules/reconciliation/reconciliation.service.ts:56-115 | A paid claim that a later row with the same reference turns into a MISMATCH |
| `Reconciliation.AppendingKeepsConfirmation` | src/modules/reconciliation/reconciliation.service.ts:56-59 | Appended rows keep a confirmation if and only if they do not hide it |
| `Reconciliation.BatchesConcatenate` | src/modules/reconciliation/reconciliation.service.ts:78-148 | Concatenating batches concatenates results and adds counters |
| `Reconciliation.CountersPartition` | src/modules/reconciliation/reconciliation.service.ts:61-64 | The four counters add up to the number of claims |
| `Reconciliation.CountIsMultiplicity` | src/modules/reconciliation/reconciliation.service.ts:61-64 | Each counter is the multiplicity of its status among the results |
| `Reconciliation.LargerLedgerMatchesMore` | src/modules/reconciliation/reconciliation.service.ts:117-146 | A larger ledger never leaves more claims unmatched |
| `Reconciliation.RunIsConsistent` | src/modules/reconciliation/reconciliation.service.ts:151-177 | Over any run of jobs every job row agrees with the result rows stored for it |
| `Reconciliation.ReconciliationService.BuildIndex` | src/modules/reconciliation/reconciliation.service.ts:56-59 | A lookup in the index built by the loop equals the scan for the last row |
| `Reconciliation.ResultsStayInBusiness` | src/modules/reconciliation/reconciliation.service.ts:52-54 | A batch of one business never names a transaction of another |
| `Reconciliation.OwnRowsConcat` | src/modules/reconciliation/reconciliation.service.ts:52-54 | The rows of a business in two lists are its rows of the one, then of the other |
| `Reconciliation.ReconciliationService.MatchClaims` | src/modules/reconciliation/reconciliation.service.ts:61-148 | The counting loop gives the per-claim answers in order, each repeating its claim and meeting the law of its status in its own fields, with the four counts |
| `Reconciliation.ReconciliationService.Persist` | src/modules/reconciliation/reconciliation.service.ts:151-177 | The job row with its counters, and one stored row per result under the id of the job |
| `Reconciliation.ReconciliationService.ReconcileBatch` | src/modules/reconciliation/reconciliation.service.ts:39-191 | Over the transactions of its business a batch stores one such result per claim and a job row with their counts, leaves earlier results alone, and reports the rate |
| `Reconciliation.ReconciliationService.GetJobResults` | src/modules/reconciliation/reconciliation.service.ts:193-208 | A job's results are found exactly for the business that owns it, and agree with its counters |
| `Ledger.EveryInterleavingIsSound` | src/modules/transactions/transactions.service.ts:14-52 | In every interleaving, also between the two reads of a verification, each row is explained by its log, fulfilment and confirmed verifications correspond, confirmations are backed, and nothing is taken back |
| `Ledger.CommitKeepsSound` | src/modules/transactions/transactions.service.ts:159-187 | Each database transaction keeps all of that, however stale its reads |
| `Ledger.VerdictIsBacked` | src/modules/verification/verification.service.ts:40-76 | A confirmation, with a payment request or without, names a transaction of the merchant that asked, with its reference and amount, that was in SUCCESS by claim or by verification, within 0.01 of the amount to compare with, if that is given and not zero |
| `Ledger.FoundInFields` | src/modules/verification/verification.service.ts:40-46 | The row found has the merchant's id and the reference claimed, and none is found only if no row has both |
| `Ledger.SuccessIsVerifiedExactlyWhen` | src/modules/verification/verification.service.ts:52-65 | The SUCCESS that a confirmation rests on was verified, not only claimed, if and only if the verified status is set |
| `Ledger.SelfClaimConfirms` | src/modules/verification/verification.service.ts:40-65 | From any tables: a capture that claims SUCCESS confirms a payment to a merchant though nothing was verified, if and only if it was captured under that merchant's id |
| `Ledger.ForeignTransactionIsNeverFound` | src/modules/verification/verification.service.ts:40-46 | After any run a transaction that was not captured under a merchant's id is no match for that merchant |
| `Ledger.FulfilmentFollows` | src/modules/verification/verification.service.ts:79-101 | A request is fulfilled if and only if a confirmed verification links to it |
| `Ledger.PaidRequestIsFulfilled` | src/modules/verification/verification.service.ts:40-101 | If the merchant has a row with the reference, and all of them are in SUCCESS and within 0.01 of the request's amount, the request is confirmed and fulfilled, whichever row is found |
| `Ledger.AmountCheckedExactlyWhenNonZero` | src/modules/verification/verification.service.ts:57-71 | Confirmation implies the expected amount if and only if the expected amount is not zero |
| `Ledger.SerialRunsAreChained` | src/modules/transactions/transactions.service.ts:159-187 | In serial runs every event starts from the status at which the event before it arrived |
| `Ledger.ChainKeptExactlyWhenReadIsCurrent` | src/modules/transactions/transactions.service.ts:159-184 | An update keeps that chain if and only if the status it read is still the row's |
| `Ledger.ConcurrentUpdatesChainExactlyWhen` | src/modules/transactions/transactions.service.ts:159-184 | From any sound tables two updates that read one row leave the log chained if and only if the first changed nothing |
| `Ledger.ConcurrentUpdatesBreakTheChain` | src/modules/transactions/transactions.service.ts:159-184 | Two updates with one read: the failing log |
| `Ledger.ServeIsStartFinish` | src/modules/verification/verification.service.ts:29-104 | A served operation is its reads and its commit with nothing in between |
| `Ledger.LedgerService.CreateTransaction` | src/modules/transactions/transactions.service.ts:8-55 | Captures the row with its claimed or pending status and the first event, each in its fields |
| `Ledger.LedgerService.UpdateTransactionStatus` | src/modules/transactions/transactions.service.ts:154-190 | Not found, or the row's status and verified status with an event from the status read |
| `Ledger.LedgerService.CreatePaymentRequest` | src/modules/verification/verification.service.ts:7-24 | An unfulfilled request with its amount, merchant and expiry |
| `Ledger.LedgerService.DecideClaim` | src/modules/verification/verification.service.ts:48-76 | The branches of the decision |
| `Ledger.LedgerService.VerifyPayment` | src/modules/verification/verification.service.ts:26-107 | Not found for another merchant's request; otherwise the answer names a row with the merchant's id and the trimmed reference, is "not found" exactly when there is none, confirms exactly a row in SUCCESS whose amount is within 0.01 of the one to compare with, and is stored; a confirmed request is fulfilled |
| `Cases.CommitSeenFromACase` | src/modules/cases/cases.service.ts:228-271 | A database transaction changes the view of its own case only, and that as the specification says |
| `CaseRuns.EveryInterleavingIsCoherent` | src/modules/cases/cases.service.ts:215-329 | In every interleaving: timelines replay to rows (status, resolution and closing time), agree with the events' targets and with complaints and evidence, breaches are never early, the level is within 0..2 and never above what the timeline accounts for |
| `CaseRuns.StatusIsTheReplay` | src/modules/cases/cases.service.ts:57-106 | After any run a case's status is the replay of its timeline |
| `CaseRuns.RecordsOnlyGrow` | src/modules/cases/cases.service.ts:246-268 | Timeline and logs are append-only, and a case's deadline never changes |
| `CaseRuns.LevelLawKeptExactlyWhen` | src/modules/cases/cases.service.ts:281-299 | An escalation keeps "level = capped number of escalations" if and only if it read level 0 just when the row is at 0 |
| `CaseRuns.LevelFallsExactlyWhen` | src/modules/cases/cases.service.ts:290-299 | The level falls if and only if a read of level 0 commits over level 2 |
| `CaseRuns.EventLawKeptExactlyWhen` | src/modules/cases/cases.service.ts:225-257 | The event log stays the one the timeline calls for if and only if the status read is current |
| `CaseRuns.BreachJustifiedExactlyWhenStillWatched` | src/modules/escalations/escalations.service.ts:13-34 | A sweep commit strikes a waiting case if and only if the case is still in a watched status |
| `CaseRuns.AnyOverdueCaseCanBeStruckAfterResolution` | src/modules/escalations/escalations.service.ts:13-34 | In every world an overdue case may be resolved between the sweep's read and commit; it is escalated all the same, and the law of breaches breaks |
| `CaseRuns.SweepOverwritesAResolution` | src/modules/escalations/escalations.service.ts:13-34 | The runs from empty tables that open and submit a case, let its deadline of an hour or more pass, read, resolve and then escalate it |
| `CaseRuns.AnyCaseCanBeEscalatedTwiceToOne` | src/modules/cases/cases.service.ts:281-313 | In every reachable world two escalations of a case at level 0 may leave level 1 beside two entries |
| `CaseRuns.ConcurrentEscalationsCountOnce` | src/modules/cases/cases.service.ts:281-313 | The run from empty tables that does it, and the level law it breaks |
| `CaseRuns.OneCaseExactlyWhenOpenedOnce` | docs/ARCHITECTURE.md:10-11 | After any run each transaction has at most one case if and only if no two steps of the run opened cases on one transaction |
| `CaseRuns.TwoCasesOnOneTransaction` | docs/ARCHITECTURE.md:10-11 | Nothing refuses it: the run that opens two cases on one transaction |
| `CaseRuns.OneCaseKeptExactlyWhen` | docs/ARCHITECTURE.md:10-11 | One operation keeps one case per transaction if and only if it opens no case on a transaction that has one |
| `CaseRuns.LifecycleKeptExactlyWhen` | docs/ARCHITECTURE.md:54-74 | Committed over any status, each kind of operation keeps a timeline on the diagram if and only if the diagram has an arrow for it from that status |
| `CaseRuns.EscalationLeavesTheLifecycle` | docs/ARCHITECTURE.md:54-74 | The run from empty tables that escalates an open case leaves the diagram |
| `CaseSerial.SerialRunsAreExact` | src/modules/cases/cases.service.ts:281-313 | In serial runs the level is the capped number of escalations, events are exactly those the timeline calls for with every source status the replay before it, breaches strike watched cases and each has one notification |
| `CaseSerial.LevelNeverFalls` | src/modules/cases/cases.service.ts:290 | In serial runs no request lowers a case's level |
| `CaseSerial.SweepStrikesExactlyTheOverdue` | src/modules/escalations/escalations.service.ts:13-64 | Each overdue case is escalated once with one entry, one event and one notification; every other view is unchanged |
| `CaseSerial.SweepInFields` | src/modules/escalations/escalations.service.ts:13-64 | Whatever the listing order, a case that is SUBMITTED, PROVIDER_REVIEW or PENDING with a deadline at or before the moment is ESCALATED at the next level with one more breach, event and notification, and every other case keeps its row and logs |
| `CaseSerial.ListingOrderIsIrrelevant` | src/modules/escalations/escalations.service.ts:13-23 | The order in which the query lists the cases makes no difference to any case |
| `CaseSerial.ListingLength` | src/modules/escalations/escalations.service.ts:66 | The reported number is the number of overdue cases |
| `CaseSerial.SweepOfAllInFields` | src/modules/escalations/escalations.service.ts:13-66 | The same of all cases at once, and the reported number is the size of the set of such cases |
| `CaseSerial.SweepReachesAFixpoint` | src/modules/escalations/escalations.service.ts:13-34 | A later sweep finds exactly the cases whose deadline passed since; at the same moment none |
| `CaseSerial.SweepIsARun` | src/modules/escalations/escalations.service.ts:13-64 | The sweep is the run that reads its list and then commits and notifies row by row |
| `CaseSerial.OneIsARun` | src/modules/cases/cases.service.ts:215-274 | Any other request is a read and a commit with nothing in between |
| `CaseSerial.BreachesAreSeparated` | src/modules/escalations/escalations.service.ts:15-16 | Between two automatic breaches of a case some entry put it back into a watched status |
| `CaseServices.CaseStore.OpenCase` | src/modules/cases/cases.service.ts:57-106 | Opens the case row, first event and first timeline entry, if the transaction exists |
| `CaseServices.CaseStore.CreateCase` | src/modules/cases/cases.service.ts:9-109 | Bad request without a transaction; refused for a transaction or provider that does not exist; a FAILED transaction recorded first when only details are given; the provider's deadline, then the case; cases keep naming existing transactions, and one case per transaction is kept if and only if the transaction is a recorded one or had no case |
| `CaseServices.CaseStore.UpdateCaseStatus` | src/modules/cases/cases.service.ts:215-274 | Not found, or the new status, the notes replaced if any are given, and resolution and closing time set or kept, with event and timeline entry; no other row changes |
| `CaseServices.CaseStore.EscalateCase` | src/modules/cases/cases.service.ts:276-329 | Not found, or ESCALATED at the next level with event and timeline entry |
| `CaseServices.CaseStore.FindExpired` | src/modules/escalations/escalations.service.ts:13-19 | Every case that is SUBMITTED, PROVIDER_REVIEW or PENDING with its deadline at or before the moment, once, in some order |
| `CaseServices.CaseStore.EscalateRows` | src/modules/escalations/escalations.service.ts:21-64 | Row by row, the loop is the sweep over the rows that were read |
| `CaseServices.CaseStore.ProcessSlaExpirations` | src/modules/escalations/escalations.service.ts:10-67 | The loop is the sweep; it escalates exactly the cases in those three statuses whose deadline has come, each with its entry, event and notification, and returns their number |
| `CaseServices.CaseStore.GenerateComplaintPackage` | src/modules/complaints/complaints.service.ts:9-102 | Not found, or a complaint row, COMPLAINT_PREPARED and a timeline entry without event |
| `CaseServices.CaseStore.RecordSubmission` | src/modules/complaints/complaints.service.ts:104-152 | Not found, or a submission row, SUBMITTED and a timeline entry without event |
| `CaseServices.CaseStore.UploadEvidence` | src/modules/evidence/evidence.service.ts:13-93 | The refusals in order; otherwise evidence and a timeline entry, and no case row changes |
| `Analytics.OverviewAddsUp` | src/modules/analytics/analytics.service.ts:28-102 | After any run of jobs the reported sums and the unreported partial sum add up, case counts add up to all but REJECTED and CLOSED, and rates are percentages |
| `Analytics.EveryRecordIsStored` | src/modules/analytics/analytics.service.ts:59-70 | The records processed are exactly the result rows there are |
| `Analytics.CaseCountsInFields` | src/modules/analytics/analytics.service.ts:28-50 | Each case count is the size of the set of rows in scope with the statuses it stands for |
| `Analytics.TransactionCountsInFields` | src/modules/analytics/analytics.service.ts:14-27 | Transactions in scope, and those of them that are FAILED or DISPUTED |
| `Analytics.SumsInFields` | src/modules/analytics/analytics.service.ts:59-102 | After any run the matched, unmatched and mismatched sums are the numbers of stored results with that status under the jobs in scope, and the rate is that of the matched ones |
| `Analytics.RecoveryKeptExactlyWhen` | src/modules/analytics/analytics.service.ts:52-58 | Any transaction on a case keeps the recovered total of any scope if and only if the case is out of scope, claims nothing, or stays on its side of "resolved" |
| `Paging.PagesAreTheList` | src/modules/transactions/transactions.service.ts:101-103 | Pages 1 to the reported number concatenate to the whole list |
| `Paging.PageIsEmptyExactlyBeyondTheLast` | src/modules/cases/cases.service.ts:163-165 | A page holds rows if and only if it is not beyond the reported number of pages |
| `Paging.RowStandsOnItsPage` | src/modules/transactions/transactions.service.ts:128-141 | Each row stands at the page and place that division gives |
| `Paging.AnswerInFields` | src/modules/cases/cases.service.ts:163-212 | A page is the stretch of the list that starts after (page - 1) * limit rows, and the number of pages is the least that holds all rows |
| `Paging.ListRows` | src/modules/cases/cases.service.ts:163-212 | A page below 1 and a limit outside its range are brought into range, and the stretch of the list that belongs to them is returned with its pagination |
| `Sessions.InvalidStaysInvalid` | src/modules/auth/auth.service.ts:211-231 | In every interleaving, password changes included, an invalidated session stays invalid, and every token is current for at most one session |
| `Sessions.DeadTokensAreNeverAccepted` | src/modules/auth/auth.service.ts:194-201 | A token that no valid session holds is never accepted again |
| `Sessions.RotatedTokenIsNeverAccepted` | src/modules/auth/auth.service.ts:191-220 | The token rotated away by a refresh is never accepted again |
| `Sessions.RefreshTokenWorksAgainExactlyWhen` | src/modules/auth/auth.service.ts:191-220 | After any steps a refresh token is accepted once more if and only if its session was not rotated, logged out or cleared, and has not expired |
| `Sessions.RefreshTokenReadTwice` | src/modules/auth/auth.service.ts:191-220 | From any sound world two refreshes that read one token are both served, and only the later one's token lasts |
| `Sessions.LoggedOutTokenIsNeverAccepted` | src/modules/auth/auth.service.ts:222-231 | Nor is one that was logged out |
| `Sessions.ResetEndsEverySession` | src/modules/auth/auth.service.ts:282-286 | Nor any token that a session of the user holds when a reset clears the sessions |
| `Sessions.ResetLocksOutExactlyWhen` | src/modules/auth/auth.service.ts:258-286 | Clearing the sessions leaves no valid one, and whoever does not know the new password gets in, in some run, if and only if a login of the user is under way or another password is about to be written |
| `Sessions.LetsInExactlyWhen` | src/modules/auth/auth.service.ts:118-157 | The same of every active user without a valid session |
| `Sessions.SuspendedGetsInExactlyWhen` | src/modules/auth/auth.service.ts:118-157 | A suspended user has a valid session in some continuation, whatever anyone does, if and only if there is one already or a login of the user is under way |
| `Sessions.ReopenedExactlyWhenLoginUnderWay` | src/modules/auth/auth.service.ts:118-157 | A user without a valid session gets one without a new login, in some run, if and only if a login is under way |
| `Sessions.OverwrittenExactlyWhenUnderWay` | src/modules/auth/auth.service.ts:291-313 | A password in force is lost without a new request if and only if a change or reset to another one is between its check and its write |
| `Sessions.SpentResetsAreNeverAccepted` | src/modules/auth/auth.service.ts:258-268 | A reset token that no user holds any more is never accepted again |
| `Sessions.ResetTokenWorksNoMore` | src/modules/auth/auth.service.ts:273-280 | Committing a reset spends the token its user holds |
| `Sessions.OnlyTheLatestResetWorks` | src/modules/auth/auth.service.ts:243-252 | A new reset token works and spends the one before it |
| `Sessions.ResetTokenWorksAgainExactlyWhen` | src/modules/auth/auth.service.ts:258-280 | After any steps a reset token is accepted once more if and only if no reset of its user was committed, no newer token was issued, and it has not expired |
| `Sessions.ResetTokenReadTwice` | src/modules/auth/auth.service.ts:258-280 | From any world: two requests that read one token before either commits both set a password with it |
| `Sessions.ResetTokenWorksAtMostOnce` | src/modules/auth/auth.service.ts:258-289 | In every serial run of calls a reset token is accepted at most once |
| `Sessions.RespelledPhoneIsRefused` | src/modules/auth/auth.service.ts:23-32 | A number that is taken cannot be registered again in another spelling |
| `Sessions.LoginSurvivesAReset` | src/modules/auth/auth.service.ts:132-157 | A run in which a login that checked the old password opens a valid session after the reset |
| `Sessions.AuthService.RegisterUser` | src/modules/auth/auth.service.ts:11-116 | Conflict for a known address or phone, or the user with a first session |
| `Sessions.AuthService.Login` | src/modules/auth/auth.service.ts:118-189 | A session for a week if and only if the user exists, the stored password is the presented one and the user is active; otherwise refused and nothing changes |
| `Sessions.AuthService.RefreshToken` | src/modules/auth/auth.service.ts:191-220 | Accepted exactly for the current token of a valid, unexpired session; afterwards the old token is dead and the new one accepted |
| `Sessions.AuthService.LogoutToken` | src/modules/auth/auth.service.ts:222-231 | Invalidates the sessions that hold the token |
| `Sessions.AuthService.ForgotPassword` | src/modules/auth/auth.service.ts:233-256 | Gives a known user a new reset token for an hour |
| `Sessions.AuthService.ResetPassword` | src/modules/auth/auth.service.ts:258-289 | Accepted exactly for an unexpired reset token that a user holds; afterwards it is spent and no session of the user is valid |
| `Sessions.AuthService.ChangeOwnPassword` | src/modules/auth/auth.service.ts:291-313 | Not found, bad request for a wrong current password, or the new password |
| `Idempotency.EveryInterleavingIsFaithful` | src/middleware/idempotency.ts:18-52 | In every interleaving each stored record is the one created under its id and each replay repeats such a record before its expiry |
| `Idempotency.ReplaysRepeatAHandlerRun` | src/middleware/idempotency.ts:22-52 | All replays of a record are identical, and each repeats a handler's response below 500 under the same key, less than a day old |
| `Idempotency.ReplaysAreNoServerErrors` | src/middleware/idempotency.ts:22-38 | In every interleaving every replayed status is below 500 |
| `Idempotency.ServerErrorIsRetried` | src/middleware/idempotency.ts:18-52 | After a response of 500 or above under a free key that nothing else uses, the next request of the key reaches the handler, whatever other keys do meanwhile |
| `Idempotency.RecordsDoNotChange` | src/middleware/idempotency.ts:36-52 | A record does not change while it is in the store |
| `Idempotency.AtMostOneKeptResponsePerDay` | src/middleware/idempotency.ts:18-52 | Without overlap per key two handler responses below 500 under one key are at least 24 hours apart |
| `Idempotency.SafeExactlyWhenQuiet` | src/middleware/idempotency.ts:18-52 | From any world of such a run: kept responses stay a day apart in all continuations without overlap if and only if the next step is no second request for a key under way, no failing lookup, and no loss of a response still worth storing |
| `Idempotency.OverlapRunsTheHandlerTwice` | src/middleware/idempotency.ts:18-52 | With overlap the handler runs twice under one key |
| `Idempotency.OwnRouteKeptExactlyWhen` | src/middleware/idempotency.ts:18-28 | A step keeps every replay on the route it was made for if and only if it does not present a key with a live record of another route |
| `Idempotency.OneRoutePerKeySuffices` | src/middleware/idempotency.ts:18-52 | In every interleaving a client that uses each key for one route gets only replays of that route |
| `Idempotency.ReplayCrossesRoutes` | src/middleware/idempotency.ts:22-44 | A run in which one route's answer is replayed on another |
| `Idempotency.IdempotencyStore.Begin` | src/middleware/idempotency.ts:5-32 | Which requests bypass, replay or proceed, and the deletion of an expired record |
| `Idempotency.IdempotencyStore.OnJson` | src/middleware/idempotency.ts:36-53 | Every response below 500 is stored for 24 hours if the key is free; one of 500 or above, or one for a taken key, changes nothing |
| `Billing.EveryRunIsSound` | src/modules/billing/billing.service.ts:41-71 | Under any deliveries in any interleaving an invoice is as issued or PAID with exactly one payment of `amountPaid`, and the totals agree |
| `Billing.FirstPaymentStands` | src/modules/billing/billing.service.ts:51-69 | No later delivery changes a paid invoice or adds a payment to it |
| `Billing.DeliveryTakesEffectExactlyWhen` | prisma/schema.prisma:847-848 | A delivery for an unpaid invoice takes effect if and only if no payment carries its gateway reference |
| `Billing.RefusedForGood` | prisma/schema.prisma:847-848 | A delivery that is refused once never takes effect, whatever comes in between |
| `Billing.SettleIsARun` | src/modules/billing/billing.service.ts:41-71 | A delivery served alone is a lookup and a commit with nothing in between |
| `Billing.BillingService.HandlePaystackWebhook` | src/modules/billing/billing.service.ts:41-74 | Ignored unless it is `charge.success` for a known invoice; otherwise the invoice is paid and a payment stored under the charge id, or the reference if there is none, or neither and an error when that is taken |

## Left out

- Express wiring, controllers, schemas, logging, configuration and the frontend: plumbing without a hard property.
- Password hashing, token signing and SHA-256: the stored password is compared as a value, tokens are fresh values, the key hash is any function.
- Doubles, `toFixed` and the formatting of `Intl`: amounts are exact, the printed format is the naira sign, comma groups and two digits, and rates are not rounded to text.
- Rounding an amount to its two-decimal column: amounts enter the model as stored.
- Upper and lower case beyond ASCII in references: `CleanReference` lowers ASCII letters only; the matcher's laws hold for any way of bringing references to one spelling.
- Reading CSV text into records: the model starts from records by header.
- The host's date parser: a parameter of `ParseFinancialText`.
- Sessions.AuthService.RegisterUser: the business that a registration may create with the user, its role and its e-mail token are not modelled; they decide nothing here.
- The expiry of payment requests: the code records it and never reads it, so it constrains nothing here.
- Evidence files, storage, the scanner itself, complaint letters, providers, e-mail and SMS: I/O or templates; only the rows and timeline entries they leave are modelled.
- Titles, descriptions and actor names of timeline entries and events: text without influence on any decision.
- Access rules of `getCaseById`, `listCases` and the lists' filters: paging starts from rows already filtered and ordered, and page numbers are whole.
- Non-atomic effects inside one database transaction, and its isolation level: a transaction is one step.
- Classification, risk scoring, quotas, teams and administration: decision lists settled by reading their branches.
- The kobo conversion of `initializeSubscription`: prices have two decimals, so it is the identity on kobo.
- The rate limiter's bypass in the test environment.
