# A verified model of the gem laboratory's back end

The laboratory takes in orders of stones, bills them, is paid through the government payment
gateway (GePG), records findings and issues certificates. This project models the parts of that
system that carry a protocol, an algorithm or an invariant, and proves what they promise.

Code that changes rows in place is a class or a method over its tables; each such method is tied
to a function on values, and the properties of whole runs are proved about those functions. Code
that only computes is a function. A refused request changes nothing. The clock is a number of
microseconds; the gateway's replies, signatures and clock readings are parameters.

| file | what it holds |
|---|---|
| `common.dfy`, `gems.dfy` | options, minimum and maximum; the laboratory's enumerations |
| `backoff.dfy`, `inbox.dfy`, `outbox.dfy`, `drain.dfy` | the durable inbox and outbox: leases, retries, the timer that drains both |
| `records.dfy`, `laboratory.dfy` | the tables, the atomic steps on them, and the services that take those steps in place |
| `settlement.dfy`, `delivery.dfy` | what payments settle, and exactly-once settlement from the gateway's promises |
| `channels.dfy`, `pipeline.dfy` | the two payment channels; inbox, workers and laboratory as one system |
| `workflow.dfy`, `demands.dfy` | what every run keeps; what each request demands and does, told from the rows |
| `stages.dfy` | an order's stage, derived and as a filter |
| `references.dfy` | allocating, deriving and displaying reference numbers |
| `roles.dfy`, `hierarchy.dfy`, `sessions.dfy` | ranks and their guards; the same told from the roles people hold; login sessions |
| `text.dfy`, `signing.dfy`, `escape.dfy` | find, replace and strip; signing and escaping XML |
| `floodfill.dfy`, `palette.dfy` | cleaning a backdrop; synchronizing the color table |

## What the proofs found

Each of these follows from the members named, and the model follows the code.

- A callback worker that outlives the five-minute stale window loses its lease, but its last save
  is unconditional: it can take a row out of PROCESSED. The window is exactly the condition
  (`Inbox.UndoableIffOverdue`, `Inbox.StealableIffOverdue`). Money is safe even then
  (`Pipeline.EachTransactionOnce`).
- Exhaustion is decided only when a post fails. A request whose sender dies each time is sent again
  without end, past the 24 hours the message in `mark_request_exhausted` states
  (`Outbox.CrashesEscapeTheLimit`). Crashes are the only way: attempts are bounded by their number
  (`Outbox.CrashesBoundAttempts`).
- `orders_at_stage` counts soft-deleted stones and `order_stage` does not, although the filter's
  documentation says they never disagree (`Stages.AgreementIff`, `Stages.DeletedStoneSplitsThem`).
- Every new transaction settles again: an overpayment takes certified and collected stones back to
  paid (`Settlement.OverpaymentReopens`, and exactly when in `Settlement.DeliveryMovesStoneIff`). A
  late cancellation overwrites a paid bill, and a later payment overwrites the cancellation
  (`Settlement.LateMessagesOverwrite`); nothing else takes a bill out of paid
  (`Workflow.PaidLeftIff`, `Workflow.PaidIsNeverLeft`, `Workflow.PaidAtEndIff`).
- A notification that names one unknown bill is rejected for good: the payments before it stay
  applied, those after it are not (`Channels.ProcessNotification`, `Channels.Code`).
- A transaction whose bill number is unknown is settled by its control number, and then the same
  message arriving again can move the recorded payment to another bill, once control numbers have
  been granted anew. That some bill has the number when it first comes is exactly what excludes
  this (`Delivery.SafeForeverIff`, `Delivery.RegrantMoves`).
- A redelivery with another amount moves what has been paid but not the bill's status
  (`Settlement.ChangedAmount`), which is why the money theorems assume that equal ids come with
  equal messages.
- The 100,001st order of a financial year repeats the 100,000th's number, because text order puts
  it below 99999 (`References.NextIsFreshIff`).
- Two order references whose sequences differ only in leading zeros derive the same bill number
  (`References.DerivedReferencesCollideIff`); allocated ones never do
  (`References.CanonicalOrdersNeverCollide`).
- A second placeholder before the last `</Gepg>` makes the verified content differ from the signed
  content; one after it does not (`Signing.PlaceholderKeepsContentIff`). So does a second `</Gepg>`
  (`Signing.InsertionKeepsContentIff`). An envelope tag with attributes is not found at all
  (`Signing.BareSigned`).

## Model

| member | source | states |
|---|---|---|
| `Backoff.DelayMonotone` | apps/billing/gepg_transport.py:94-98 | the retry delay never shrinks as attempts grow |
| `Backoff.DelayBounds` | apps/billing/gepg_transport.py:94-98 | the delay lies between the smaller of initial and maximum, and the maximum, and is the same from the eleventh attempt on |
| `Backoff.DelayDoubles` | apps/billing/gepg_transport.py:94-98 | the first delay is the smaller of initial and maximum, each later one up to the eleventh the smaller of twice the one before and the maximum |
| `Backoff.DefaultSchedule` | config/settings/base.py:299-301 | the delays the default settings give: 60 s doubling to 960 s, then 1800 s |
| `Inbox.CallbackTable.Receive` | apps/billing/webhooks.py:73-81 | storing an event twice leaves its first row and every other row alone |
| `Inbox.CallbackTable.Claim` | apps/billing/processing.py:41-56 | the claim succeeds exactly when the row is due, counts the attempt and stamps the claim; otherwise nothing changes |
| `Inbox.CallbackTable.ProcessCallback` | apps/billing/processing.py:39-124 | works exactly the due rows, leaves every other row alone, settles the row by the handler's answer; one that raised waits from the last save for the delay of its own attempt, or has failed at the age limit; with positive delays the row is left not due |
| `Inbox.SettledMeaning` | apps/billing/processing.py:76-124 | PROCESSED exactly on acknowledgement, FAILED exactly on rejection or on an error at the age limit, otherwise rescheduled within the bounds of the backoff |
| `Inbox.WaitDoubles` | apps/billing/processing.py:99-107 | what a callback waits: the initial delay first, each wait twice the one before up to the cap, the same from the eleventh on |
| `Inbox.DefaultWaits` | config/settings/base.py:299-301 | at the default settings: 60, 120, 240, 480, 960 and then 1800 seconds |
| `Inbox.GivenUpByAge` | apps/billing/processing.py:87-98 | however often a callback was claimed, crashed over and retried since it arrived, the first error at the age limit or later ends it |
| `Inbox.StepKeepsLease` | apps/billing/processing.py:18-56 | every step keeps the lease: one live worker per PROCESSING row, stamped by its claim; final rows stay |
| `Inbox.LeaseHolds` | apps/billing/processing.py:18-124 | the same over every interleaving of claims, crashes, ticks and saves in which live workers finish within the window |
| `Inbox.MutualExclusion` | apps/billing/processing.py:39-56 | from a table without live workers, two live workers never hold one callback, and its row carries the holder's timestamp |
| `Inbox.StealableIffOverdue` | apps/billing/processing.py:28-36 | a held callback can be claimed by another worker if and only if its holder has outlasted the window |
| `Inbox.OversleepingUndoesProcessed` | apps/billing/processing.py:99-107 | a concrete run at the default settings: a worker past its window saves over PROCESSED |
| `Inbox.UndoableIffOverdue` | apps/billing/processing.py:28-124 | in every leased state: another worker can process a held callback and the holder then take it out of PROCESSED if and only if the holder is overdue and the callback is no cancellation |
| `Inbox.OverdueUndoes` | apps/billing/processing.py:87-109 | an overdue holder whose handler raises puts a processed callback back to waiting within the age limit, and to FAILED beyond it |
| `Inbox.AttemptsCountClaims` | apps/billing/processing.py:47 | attempts is the number of claims granted, in every run |
| `Inbox.CompletedAtMostOnce` | apps/billing/processing.py:111-123 | under the lease a callback is completed at most once, and PROCESSED records exactly that |
| `Inbox.NoCallbackIsStranded` | apps/billing/processing.py:28-36 | in every run, crashes included, each unfinished callback comes due within a fixed time of its last write |
| `Outbox.GepgRequest.constructor` | apps/billing/gepg_transport.py:31-42 | a new request starts SENDING with no attempts |
| `Outbox.GepgRequest.Attempt` | apps/billing/gepg_transport.py:51-110 | one post: the count, the first attempt time and, on failure, rejected, exhausted or rescheduled by code and age |
| `Outbox.GepgRequest.Finish` | apps/billing/gepg_transport.py:113-139 | the gateway's answer ends the request as accepted or rejected |
| `Outbox.FailedMeaning` | apps/billing/gepg_transport.py:81-105 | a failed post: a response below 500 rejects, at the age limit the request is exhausted, otherwise it waits; attempts and first attempt stay |
| `Outbox.WaitDoubles` | apps/billing/gepg_transport.py:94-99 | the waits double up to the cap, counted from the start of the post |
| `Outbox.ScheduleHolds` | apps/billing/gepg_transport.py:51-105 | in every timely run at most one live sender, attempts no closer than the backoff, and settled requests never change |
| `Outbox.LateFailureExhausts` | apps/billing/gepg_transport.py:86-91 | a retryable failure at an attempt old enough exhausts the request |
| `Outbox.AttemptsTakeTime` | apps/billing/gepg_transport.py:94-99 | with positive settings, n attempts take at least n-1 seconds |
| `Outbox.AttemptsAreBounded` | apps/billing/gepg_transport.py:87-99 | an uninterrupted request makes at most one attempt more than the age limit has seconds, for all positive settings |
| `Outbox.AtMost53Attempts` | config/settings/base.py:299-301 | at the defaults at most 53 attempts, and a retryable failure of the 53rd exhausts |
| `Outbox.PunctuallyExhausted` | apps/billing/gepg_transport.py:87-99 | the bound is met: an always failing request is waiting after 52 attempts and exhausted by its 53rd |
| `Outbox.FailureAfter291Exhausts` | apps/billing/processing.py:127-137 | with crashes and stale recovery, a retryable failure at attempt 291 or later exhausts |
| `Outbox.CrashesBoundAttempts` | apps/billing/gepg_transport.py:87-99 | for all positive settings, over every timely run, crashes and recoveries included, the attempts are at most one more than the age limit has seconds, and one more for each crash |
| `Outbox.DefaultAttempts` | config/settings/base.py:299-301 | at the default settings: at most 291 attempts and one more for each crash |
| `Outbox.CrashesEscapeTheLimit` | apps/billing/processing.py:127-137 | a request whose sender dies each time is recovered and resent without end, whatever the age limit |
| `Outbox.CrashRoundsCrash` | apps/billing/processing.py:127-137 | those runs crash once for each attempt, so that attempts are bounded exactly when crashes are |
| `Drain.Worker.RecoverStale` | apps/billing/processing.py:127-137 | exactly the abandoned requests are set to retry at once, keeping their attempts and first attempt time, and they are counted |
| `Drain.Worker.Begin` | apps/billing/processing.py:225-233 | every request that had been abandoned at the reading of the clock is waiting and due when the passes start, every other one as it was |
| `Drain.Worker.NextDueCallback` | apps/billing/processing.py:140-146 | none exactly when nothing is due, otherwise the oldest due callback |
| `Drain.Worker.NextDueRequest` | apps/billing/processing.py:149-157 | none exactly when nothing is due, otherwise the earliest retry time, rows without one last |
| `Drain.Worker.ProcessCallback` | apps/billing/processing.py:39-124 | with time passing inside, a due callback is always worked, and ends settled by its handler's answer at the time of the last save |
| `Drain.Worker.ProcessRequest` | apps/billing/processing.py:160-222 | a due request is claimed and posted once, and ends as that post and its time decide |
| `Drain.Worker.Drain` | apps/billing/processing.py:225-263 | the drain ends; with less than an item's reserve left or with nothing due at the last checks of both queues; never past the deadline if items keep to the reserve; nothing without budget; the counts are those of the rows worked, each attempted as often as it was worked; each request found abandoned ends tried again or waiting to be, and tried again whenever time was left |
| `Drain.Worker.Pass` | apps/billing/processing.py:235-257 | one pass works at most one row of each queue; one that works nothing saw both queues empty or ran out of time; one that works something at an unmoving clock leaves a smaller backlog |
| `Drain.Shrinks` | apps/billing/processing.py:235-257 | working a due row at an unmoving clock leaves strictly fewer due rows |
| `Laboratory.Services.TransitionStone` | apps/orders/services/stone.py:15-45 | the status moves and one ledger line is written, none when the stone is already there |
| `Laboratory.Services.AddStone` | apps/orders/services/stone.py:64-117 | succeeds exactly when the category fits and the order is not full; the stone gets the next letter, RECEIVED and its first ledger line |
| `Laboratory.Services.UpdateStone` | apps/orders/services/stone.py:173-268 | saves or refuses as a whole; never touches status or ledger, and the category only while nothing was billed from it |
| `Laboratory.Services.PreviewBill` | apps/billing/services/bill.py:47-103 | the one pass prices every live stone, totals those with a fee and lists the blockers, writing nothing |
| `Laboratory.BlockersMeaning` | apps/billing/services/bill.py:69-82 | each blocker appears exactly when the order has a bill, has no live stones, or has a live stone in that unpriced category |
| `Laboratory.PreviewAgrees` | apps/billing/services/bill.py:47-161 | billing succeeds exactly when there is no blocker, the reference is well formed and its bill number is not taken; then the previewed lines and total are the bill's |
| `Laboratory.Services.BillStones` | apps/billing/services/bill.py:130-157 | stops at the first unpriced stone; otherwise a line per stone, their sum, and every stone moved |
| `Laboratory.Services.CreateLocalBill` | apps/billing/services/bill.py:106-161 | succeeds exactly when the order has no bill, has stones, all priced, a valid reference, and a bill number not taken; a refusal rolls everything back |
| `Settlement.RedeliveryInertIff` | apps/billing/services/payment.py:68-75 | a known transaction never touches bills or stones, and changes nothing if and only if it repeats the recorded bill and amount |
| `Delivery.ExactlyOnce` | apps/billing/services/payment.py:50-97 | in any run in which equal transaction ids come with equal messages and a message is first recorded when some bill has its number, the whole state is that of each transaction once, at its first arrival, whatever else happens in between |
| `Delivery.MessagesAreConsistent` | apps/billing/services/payment.py:59-75 | in such a run every redelivery changes nothing |
| `Delivery.SafeForeverIff` | apps/billing/services/payment.py:59-62 | at any first delivery of a resolvable message: whatever else happens and whoever else pays, it can come again at any time without effect if and only if some bill has the number it carries |
| `Delivery.RegrantMoves` | apps/billing/services/payment.py:59-62 | without that, two grants of control numbers make the same message move its recorded payment to another bill |
| `Delivery.OpeningMoves` | apps/billing/services/payment.py:59-62 | and with a single bill, opening a second one leads there |
| `Delivery.RunKeepsTables` | apps/billing/models/bill.py:54-68 | in every run bill numbers and control numbers stay distinct, and bills and stones belong to orders that exist |
| `Delivery.BackedByMessages` | apps/certificates/services/certificate.py:71-127 | every certificate is backed by money, from those promises about messages alone |
| `Settlement.RepeatsWithSameContents` | apps/billing/services/payment.py:50-97 | deliveries alone, of ids not yet on record: if equal ids mean equal messages, any sequence has the effect of each once, named bill or not |
| `Settlement.FirstDelivery` | apps/billing/services/payment.py:77-97 | a new transaction adds its row, sets one bill's status from the new sum, and moves stones only when that settles it |
| `Settlement.PaymentsSettle` | apps/billing/services/payment.py:77-97 | closed form of a run of new payments: rows in order, every bill's status from what is paid towards it |
| `Settlement.SettlementOfABill` | apps/billing/services/payment.py:77-97 | pending exactly when nothing arrived, paid exactly when what arrived reaches the total, part paid otherwise |
| `Settlement.ArrivalOrderIsIrrelevant` | apps/billing/services/payment.py:77-97 | every permutation of the payments gives the same statuses and amounts |
| `Settlement.PaidStaysPaid` | apps/billing/services/payment.py:77-97 | one further non-negative payment of a fully paid bill leaves it paid |
| `Settlement.StonesFollowTheBill` | apps/billing/services/payment.py:78-82 | the order's live stones are moved to paid exactly when the bill ends paid |
| `Settlement.OverpaymentReopens` | apps/billing/services/payment.py:77-82 | a further payment of a settled bill takes every live stone back to paid |
| `Settlement.DeliveryMovesStoneIff` | apps/billing/services/payment.py:68-82 | a delivery changes a stone's status if and only if its id is new, it names the bill of the stone's order, the stone is live and not already paid, and what is then paid reaches the total |
| `Settlement.LateMessagesOverwrite` | apps/billing/services/gepg_operations.py:106-112 | a cancellation overwrites a paid bill, and a later payment overwrites the cancellation |
| `Settlement.ChangedAmount` | apps/billing/services/payment.py:71-75 | a redelivery with another amount moves the paid sum by the difference and leaves bill and stones |
| `Channels.ApplyPayment` | apps/billing/services/payment.py:50-97 | resolves by number then control number, overwrites a known row, otherwise records and settles; refuses exactly an unknown bill |
| `Channels.SettleBill` | apps/billing/services/payment.py:77-97 | sums the bill's payments, sets its status and moves the stones |
| `Channels.ProcessNotification` | apps/billing/services/payment.py:24-47 | a prefix of the transactions stays committed; accepted exactly when all are applied; otherwise it stopped at an unexpected error or at the first unknown bill, and the answer says which; a malformed message changes nothing |
| `Channels.RedeliveryCompletes` | apps/billing/services/payment.py:50-75 | one notification applied in part, then in full, gives the state of one uninterrupted pass |
| `Channels.Reconciliation.ApplyDetails` | apps/billing/services/gepg_operations.py:208-253 | rows are stored one by one and paid only if the batch settled; where it stops, at a failed payment, an unexpected error or a malformed detail, what came before is kept |
| `Channels.HandleReconciliation` | apps/billing/services/gepg_operations.py:192-262 | a settled batch delivers exactly the transactions before the point where it stops, an unsettled one none, and the answer tells full success, a malformed detail and any other failure apart; an unknown request or malformed message pays nothing |
| `Channels.AnswerMeaning` | apps/billing/services/gepg_operations.py:225-262 | the answer to a batch is full success exactly when every detail was applied, malformed exactly when it stopped at one that does not parse, failed exactly at any other, which an error or an unknown bill of a settled batch explains |
| `Channels.LastWriteWins` | apps/billing/services/gepg_operations.py:226-240 | of several details with one id the last stored stays |
| `Channels.OtherRowsStay` | apps/billing/services/gepg_operations.py:226-240 | rows of other ids are untouched |
| `Channels.Code` | apps/billing/processing.py:76-77 | only full success completes a callback; with any other code the inbox rejects it for good |
| `Channels.IssueCertificate` | apps/certificates/services/certificate.py:53-136 | issues exactly when the stone has no certificate, a final report, a paid bill, a weight, a type and a number not taken; otherwise nothing changes |
| `Pipeline.EachTransactionOnce` | apps/billing/processing.py:39-124 | inbox, workers and laboratory together: over any run of arrivals, claims, single transactions, batches, errors, crashes, stale reclaims and late saves on both channels, the laboratory ends as if each transaction had been applied once, where it first was |
| `Pipeline.OnceMeaning` | apps/billing/services/payment.py:54-57 | what that run keeps: every id paid, none twice, none already on record |
| `Pipeline.ProcessedIsRecorded` | apps/billing/processing.py:58-77 | in every such run, overslept workers included, a callback that stands as PROCESSED has every transaction of its notification or settled batch on record |
| `Pipeline.ProcessedIsPaidAs` | apps/billing/processing.py:58-77 | and each of them with its amount, on the bill it names |
| `Pipeline.HandlersExclude` | apps/billing/processing.py:41-56 | while workers finish within the window no two handlers work one callback, whatever the laboratory does meanwhile |
| `Pipeline.BatchStep` | apps/billing/processing.py:58-77 | a batch step of the combined system pays nothing unless the request is known, the message parsed and the batch settled; then exactly what comes before its stop, and it answers accordingly |
| `Pipeline.HandleBatch` | apps/billing/services/gepg_operations.py:192-262 | the handler of a batch, run on the tables, leaves the state and the answer of that step |
| `Pipeline.HandleNotification` | apps/billing/services/payment.py:24-47 | the handler of a notification, run on the tables, leaves the state and the answer of the single steps its worker takes |
| `Pipeline.FinishAnswers` | apps/billing/processing.py:58-124 | the inbox settles the callback by that answer |
| `Workflow.StepKeeps` | apps/orders/services/stone.py:15-45 | every step keeps ledgers, bills, payments and certificates sound and rewrites nothing on record |
| `Workflow.RunKeeps` | apps/billing/services/bill.py:106-161 | the same over every run, with non-negative amounts and inert redeliveries |
| `Workflow.LedgersReplay` | apps/orders/services/stone.py:32-44 | in every reachable state each history starts at RECEIVED, each line leaves the previous status for another, the last is the status; a type fits its category |
| `Workflow.CertificatesAreBacked` | apps/certificates/services/certificate.py:71-127 | in every reachable state each certificate has a bill whose lines add up and whose payments reach the total, and no stone has two |
| `Workflow.PaidNeedsAPayment` | apps/billing/services/payment.py:77-79 | in every reachable state a paid bill of a positive total has a payment on record |
| `Workflow.FundedStatus` | apps/billing/services/payment.py:77-97 | what any step makes of the status of a bill whose payments reach its total: cancelled by its cancellation, paid by a further payment, otherwise unchanged |
| `Workflow.PaidLeftIff` | apps/billing/services/gepg_operations.py:160-164 | in every sound state a paid bill stays paid through a step if and only if the step is not its confirmed cancellation |
| `Workflow.PaidIsNeverLeft` | apps/billing/services/payment.py:77-97 | over every run without a confirmed cancellation of it a paid bill stays paid, whatever else happens |
| `Workflow.PaidAtEndIff` | apps/billing/services/payment.py:77-97 | over every run at all, a bill once paid ends paid if and only if each of its cancellations is followed by a new payment |
| `Workflow.OneUnchangingBill` | apps/billing/services/bill.py:212-232 | however billing, identification and retries interleave, an order has one bill at most, whose number, lines and total never change |
| `Workflow.BillingEvents` | apps/billing/services/identification.py:11-34 | manual, automatic and retried billing keep every invariant |
| `Demands.CertifyIff` | apps/certificates/services/certificate.py:71-107 | from the rows alone: issued exactly for a live stone that never had a certificate, with a final report, a paid bill, a weight, an exact type and a free number |
| `Demands.CertifyDoes` | apps/certificates/services/certificate.py:107-136 | one certificate, numbered by the order's year and sequence and the stone's letter; the stone is certified; nothing else changes |
| `Demands.EveryIssueWasDue` | apps/certificates/services/certificate.py:71-127 | over every run: each certificate not there at the start came from an issue, at which its stone had a final report, a weight, a type and a paid bill |
| `Demands.GenerateIff` | apps/billing/services/bill.py:106-161 | a bill is made exactly for an order without one, with live stones, each with a fee, and a free number |
| `Demands.AutoBillIff` | apps/billing/services/identification.py:11-34 | automatically: exactly when automation is on, all stones are identified, nobody has stopped the order and it is billable |
| `Demands.RetryIff` | apps/billing/services/bill.py:218-232 | by a retry: the same but for the automation |
| `Demands.BillingDoes` | apps/billing/services/bill.py:106-161 | a pending bill with one line per live stone at its category fee, under its type if known and else its category, their sum for its total, and no control number |
| `Demands.BillingMoves` | apps/billing/services/bill.py:130-157 | exactly the order's live stones become billed |
| `Demands.IntakeIff` | apps/orders/services/stone.py:64-117 | a stone is taken in exactly when a category is given or follows, the type belongs to it and there is room |
| `Demands.IntakeDoes` | apps/orders/services/stone.py:64-117 | the new stone in full |
| `Demands.EditIff` | apps/orders/services/stone.py:173-268 | an edit is saved exactly when automatic billing, a final report, the status and the type allow it |
| `Demands.EditDoes` | apps/orders/services/stone.py:173-268 | the named parts are saved, an old type that no longer fits is cleared, everything else stays |
| `Demands.BinnedIff` | apps/orders/views.py:263-277 | a stone is binned exactly before billing and without automatic billing, and comes back as it was |
| `Demands.HoldIff` | apps/orders/services/order.py:75-164 | an order is held, released or cancelled at any time, except that a paid one is not cancelled |
| `Demands.SubmittedDoes` | apps/billing/services/bill.py:173-191 | an answer always leaves its code, a control number only with success and if it is no other bill's |
| `Demands.ResponseDoes` | apps/billing/services/bill.py:235-258 | a callback grants a control number exactly on 7101 with a real number of no other bill |
| `Demands.CancelDoes` | apps/billing/services/gepg_operations.py:150-164 | a cancellation leaves its code and cancels exactly on 7283 |
| `Demands.CertificateBinDoes` | apps/core/viewsets.py:53-70 | a binned certificate comes back exactly if no live one has taken its number |
| `Demands.ResolveMeaning` | apps/billing/services/payment.py:59-66 | a payment is for the newest bill with its number; only when none has it, for the newest with its control number; for none without either |
| `Stages.FinishedAgrees` | apps/orders/selectors.py:275-285 | among paid orders the set tests select exactly the stage the subset loop returns |
| `Stages.FilterPartitions` | apps/orders/selectors.py:175-285 | every order is selected at exactly one stage |
| `Stages.AgreementIff` | apps/orders/selectors.py:55-285 | filter and derivation agree on an order if and only if it is stopped or its soft-deleted stones leave both counts alike |
| `Stages.FilterIsDerivation` | apps/orders/selectors.py:55-285 | without soft-deleted stones the filter returns exactly, and in order, the orders with that derived stage |
| `Stages.DeletedStoneSplitsThem` | apps/orders/selectors.py:20-27 | one soft-deleted stone makes the two disagree |
| `Stages.LeastAdvancedStone` | apps/orders/selectors.py:125-141 | a paid running order reports its furthest-behind stone |
| `Stages.StoppedStages` | apps/orders/selectors.py:85-101 | cancelled and on hold: by the order's hold first, then by a live cancelled stone, then by a live held one |
| `Stages.BillingStages` | apps/orders/selectors.py:90-123 | for an order nothing has stopped, when each stage up to payment is derived; attention exactly under automatic billing without a bill or with a pending one that has neither control number nor acknowledgement |
| `Stages.FinishedStages` | apps/orders/selectors.py:125-141 | after payment: a finished stage exactly when all live stones are there or further and not all are further |
| `References.FinancialYear` | apps/core/services.py:13-29 | the July-to-June year pair that contains the month |
| `References.FixedOrder` | apps/core/services.py:63-70 | at a fixed width text order is numeric order |
| `References.StemSpelled` | apps/core/services.py:56-57 | the stem holds the prefix and the last two digits of the two years, the earlier first |
| `References.LatestMeaning` | apps/core/services.py:58-62 | the scan returns the greatest reference under the stem in text order, deleted rows included |
| `References.LatestIsPeak` | apps/core/services.py:58-69 | with rows numbered 1 to n the text maximum is the numeric one, except that 99999 hides 100000 |
| `References.NextIsFreshIff` | apps/core/services.py:32-70 | the allocated number is unused if and only if fewer than 100,000 rows lie under the stem |
| `References.NumbersCountUp` | apps/core/services.py:45-70 | over every run of creations and soft deletions, the rows under a stem are numbered 1, 2, 3 and so on |
| `References.NeverReissued` | apps/core/services.py:45-48 | no number is handed out twice, a soft-deleted order's included |
| `References.DerivedReferencesCollideIff` | apps/core/services.py:73-91 | two derived references are equal if and only if year, numeric sequence and label are |
| `References.CanonicalOrdersNeverCollide` | apps/core/services.py:73-91 | five-digit order references derive distinct references |
| `References.DisplayIsReversible` | apps/core/services.py:94-110 | deleting the slash from the display form gives the stored value back |
| `References.DisplayedIff` | apps/core/services.py:94-110 | a slash is shown exactly in values of capitals, four digits, one to five digits and perhaps a label, between the years; every other value is shown as it is |
| `References.DerivedReferenceDisplay` | apps/core/services.py:102-110 | a derived reference displays with its year pair split by a slash |
| `Roles.Accounts.SyncUserRoles` | apps/users/services/roles.py:70-98 | unknown exactly when a name is not visible; otherwise the named roles replace the user's, only if the actor outranks every role given or taken; other users keep theirs |
| `Roles.RankAtMost` | apps/users/services/roles.py:31-39 | a user ranks at most r exactly when every role they hold does |
| `Roles.AllowedDiffersBelow` | apps/users/services/roles.py:153-170 | an allowed assignment changes no role ranked at or above its actor |
| `Roles.StepConfined` | apps/users/views.py:271-300 | no request by somebody ranked at most r changes who holds a role ranked r or above |
| `Roles.RoleEventConfined` | apps/users/views.py:363-390 | creating, renaming and deleting roles cannot reach those ranks or add permissions |
| `Roles.NoEscalation` | apps/users/services/roles.py:70-187 | over every run by users who start at most at r: the roles ranked r and above keep their holders, contents and number, and nobody below gains a permission from outside |
| `Roles.PermissionsNeverGrow` | apps/users/services/roles.py:136-150 | over such a run the union of all permissions never grows |
| `Hierarchy.RankByRoles` | apps/users/services/roles.py:26-39 | a rank is decided by the highest of superadmin, admin and manager that is held |
| `Hierarchy.ManageRoleIff` | apps/users/services/roles.py:101-123 | the protected role is refused to everybody; any other needs somebody to whom the old and the new name are below |
| `Hierarchy.AssignIff` | apps/users/services/roles.py:153-170 | allowed exactly when every role given or taken is below the actor: anything for the top, below admin for an admin, below manager for a manager, nothing for others |
| `Hierarchy.GrantIff` | apps/users/services/roles.py:136-150 | allowed exactly when each added permission is held by the actor |
| `Hierarchy.ManageUserIff` | apps/users/services/roles.py:173-187 | allowed exactly for oneself and for those below: the top manages even its peers, and a user without any role is below everybody with one |
| `Hierarchy.ShownIff` | apps/users/services/roles.py:51-62 | a role is shown exactly to those who hold it or stand above it |
| `Hierarchy.SetRolesDoes` | apps/users/services/roles.py:70-98 | replacing roles by name: exactly when the actor may manage the user, each name is known and shown, and each role that changes is the actor's to give; then the user holds exactly those |
| `Hierarchy.UpdateUserDoes` | apps/users/views.py:271-283 | the same by id |
| `Hierarchy.CreateUserDoes` | apps/users/services/accounts.py:72-90 | a new account has the one role it is given, which must be its creator's to give |
| `Hierarchy.CreateRoleDoes` | apps/users/views.py:363-372 | a role is created exactly under a free name below the actor, with permissions the actor holds |
| `Hierarchy.UpdateRoleDoes` | apps/users/views.py:373-385 | and edited exactly when it is not protected, both names are below the actor, the name is free and no permission is added that the actor lacks |
| `Hierarchy.DeleteRoleDoes` | apps/users/views.py:387-390 | deleting a role takes it from everybody and nothing else |
| `Sessions.SessionTable.IssueSession` | apps/users/services/sessions.py:16-21 | a login adds one live row whose deadline starts now |
| `Sessions.SessionTable.ActiveSession` | apps/users/services/sessions.py:24-41 | accepted exactly when the session is the user's, not revoked and not idle; an idle one is revoked on the spot |
| `Sessions.SessionTable.RecordInteraction` | apps/users/services/sessions.py:44-54 | the deadline moves exactly when the session is accepted and still live at the write |
| `Sessions.SessionTable.RevokeSession` | apps/users/services/sessions.py:57-65 | the session is revoked, an earlier revocation kept, everything else unchanged |
| `Sessions.AcceptanceIsEarned` | apps/users/services/sessions.py:24-54 | in every run, slow writes included, acceptance means that at every moment since the login some recorded interaction was less than thirty minutes old |
| `Sessions.RevokedForGood` | apps/users/services/sessions.py:32-33 | once revoked, a session is never accepted again in any run |
| `Sessions.RejectionIsFinal` | apps/users/services/sessions.py:35-40 | a rejected request of the session's own user ends it for good |
| `Sessions.AcceptedForHalfAnHour` | apps/users/services/sessions.py:24-41 | a live session is accepted until thirty minutes after its last interaction, and revoked by a request from then on |
| `Sessions.StrangersRefused` | apps/users/services/sessions.py:24-41 | somebody else's, an unknown and a revoked session are refused and left alone |
| `Signing.ElementFound` | apps/billing/gateways/signing.py:34-39 | the first signature element is found and cut out, whatever follows |
| `Signing.PlaceholderSigned` | apps/billing/gateways/signing.py:61-64 | with one placeholder, signing in its place keeps the signed content, and the result verifies |
| `Signing.PlaceholderKeepsContentIff` | apps/billing/gateways/signing.py:61-64 | signing in place of the first placeholder of an envelope keeps the signed content if and only if no other placeholder comes before the last closing tag |
| `Signing.EnvelopeSigned` | apps/billing/gateways/signing.py:65 | with one closing tag, inserting the signature before it keeps the signed content |
| `Signing.InsertionKeepsContentIff` | apps/billing/gateways/signing.py:65 | for every unsigned envelope the signed content is kept if and only if it has one closing tag |
| `Signing.InsertionVerifies` | apps/billing/gateways/signing.py:97-113 | an unsigned envelope with one closing tag verifies once signed |
| `Signing.BareSigned` | apps/billing/gateways/signing.py:40-44 | without a literal opening tag the content is kept if and only if only blanks precede the closing tag |
| `Signing.RepeatedPlaceholder` | apps/billing/gateways/signing.py:62-64 | a concrete payload with two placeholders: the verified content holds the signature and the signed content the placeholder |
| `Signing.PlainSigned` | apps/billing/gateways/signing.py:34-65 | a plain message with the placeholder, spelled out: its stripped text is signed and the signature takes the place |
| `Signing.PlainInserted` | apps/billing/gateways/signing.py:34-65 | and one without: a line of its own before the closing tag |
| `Text.StripMeaning` | apps/billing/gateways/signing.py:43-44 | stripping drops blanks at both ends and nothing else |
| `Text.ReplaceParts` | apps/billing/gateways/signing.py:65 | replacement works piece by piece around an occurrence |
| `Text.FindParts` | apps/billing/gateways/signing.py:37-43 | the first occurrence in two pieces is in the first piece if it occurs there |
| `Escape.EscapesEachCharacter` | apps/billing/gateways/gepg.py:45-52 | the five replacements in a row are one pass giving each character its entity |
| `Escape.EscapedIsWellFormed` | apps/billing/gateways/gepg.py:41-52 | no raw markup character is left, and every ampersand opens a predefined entity |
| `Escape.DecodeEscape` | apps/billing/gateways/gepg.py:41-52 | reading the entities back gives the text, for every text |
| `Escape.EntitiesSpelled` | apps/billing/gateways/gepg.py:45-52 | the five entities by name |
| `Escape.AmpersandLastIff` | apps/billing/gateways/gepg.py:47 | with the ampersand replaced last the result is right if and only if the text has no other markup character |
| `FloodFill.SpillIsLeast` | apps/certificates/scripts/clean_backdrop.py:106-116 | the cleared set is the least one holding the seeds and closed under neighbouring backdrop |
| `FloodFill.SeedsAreCleared` | apps/certificates/scripts/clean_backdrop.py:95-101 | every seed is backdrop and is cleared |
| `FloodFill.NeutralIff` | apps/certificates/scripts/clean_backdrop.py:58-63 | a pixel is neutral exactly when every two of its channels differ by less than six |
| `FloodFill.ArtworkStays` | apps/certificates/scripts/clean_backdrop.py:95-101 | whatever carries color or is darker than the grey by more than ten is never cleared |
| `FloodFill.CellsAreCleared` | apps/certificates/scripts/clean_backdrop.py:95-101 | every neutral pixel within ten of the grey is cleared, wherever it is |
| `FloodFill.FillSpreads` | apps/certificates/scripts/clean_backdrop.py:106-116 | beside a cleared pixel exactly the neutral pixels light enough are cleared |
| `FloodFill.ClearedHasReason` | apps/certificates/scripts/clean_backdrop.py:103-116 | a cleared pixel is a seed or lies beside another cleared one |
| `FloodFill.CandidateIff` | apps/certificates/scripts/clean_backdrop.py:66-82 | a pixel counts exactly when it is neutral at 150 to 249 |
| `FloodFill.MostCommon` | apps/certificates/scripts/clean_backdrop.py:73-82 | the commonest level and, among equals, the one counted first |
| `FloodFill.DetectCheckerGrey` | apps/certificates/scripts/clean_backdrop.py:66-82 | refuses exactly when no color counts; otherwise the commonest candidate level |
| `FloodFill.DetectedIsDominant` | apps/certificates/scripts/clean_backdrop.py:76-82 | the detected grey is the level that most candidate pixels of the image show |
| `FloodFill.Seeds` | apps/certificates/scripts/clean_backdrop.py:104 | the queue starts with exactly the seed pixels |
| `FloodFill.Fill` | apps/certificates/scripts/clean_backdrop.py:103-116 | the fill ends; the picture is the original with exactly the pixels reachable from a seed through backdrop made transparent, and the count is their number |
| `FloodFill.Clean` | apps/certificates/scripts/clean_backdrop.py:85-116 | refuses and changes nothing exactly when no pixel is a candidate; otherwise clears the spill of the dominant grey, which lies in 150 to 249, at least one pixel; tinted pixels and those too dark to be backdrop stay as they were |
| `Palette.LatestDeletedMeaning` | apps/gems/color_palette.py:53-55 | the row reused is the latest deleted of that name, the highest row number among equals |
| `Palette.ChosenMeaning` | apps/gems/color_palette.py:50-57 | the row a name takes: its live row, else the one deleted last, the highest row number among equals; a new one only when no row has the name |
| `Palette.ColorTable.Restore` | apps/core/models/base.py:90-94 | restoring a row whose name has no live row keeps live names unique |
| `Palette.ColorTable.PlaceColor` | apps/gems/color_palette.py:50-71 | one color: the live row, else the latest deleted one restored, else a new one; corrected and active; every write keeps live names unique |
| `Palette.ColorTable.Sync` | apps/gems/color_palette.py:46-73 | the loop and the bulk soft delete, as one function of the table |
| `Palette.ColorShown` | apps/gems/color_palette.py:50-71 | each color ends on the row its name chose at the start, or on a new one |
| `Palette.SyncShowsPalette` | apps/gems/color_palette.py:46-73 | the live rows end exactly as the palette, all active; no row is removed or renamed, and rows of other names only ever become deleted |
| `Palette.SecondRunChangesNothing` | apps/gems/color_palette.py:46-73 | a second run changes nothing |

## Left out

- HTTP, SMS and XML parsing, keys and certificates, PDF and QR rendering: messages arrive parsed, and signing and verifying are a pair of functions with the one law that what is signed verifies.
- Signing.VerifyPayload: takes the text of the first literal signature element where the code asks an XML parser for the root's signature child, and treats decoding as part of the abstract verification.
- Views, serializers, permissions of endpoints, seed commands, reports, notifications and audit stamps: side effects outside the properties here. Role and account requests are modelled with the guards their views call.
- Demands.SubmittedDoes: the 30 characters a status code is cut to are not modelled.
- Roles.NoEscalation: deleting an account is not an event of these runs; it can only take holders away.
- Isolation below an atomic step: each conditional update and each transaction is one step, and other workers interleave between them.
- Inbox.CallbackTable.ProcessCallback: the text of the last error is not kept.
- Drain.Worker.NextDueRequest: ties between equal retry times, which the code breaks by creation time, are left open.
- Drain.Worker.Drain: assumes one timer at a time, while other writers may add rows or change rows that are not waiting whenever the clock moves.
- Outbox.GepgRequest.Attempt: what an exhausted request writes on its bill, cancellation or reconciliation is not modelled.
- Channels.ApplyPayment: only the transaction id, the bill and the amount of a payment row are kept; a missing amount counts as zero, and the other fields are evidence.
- Pipeline.EachTransactionOnce: a bill's own callback is a step of the laboratory that can come at any time, and its worker's answer is free; a batch whose handler raises after paying is undone by the code, which here is the run in which it paid nothing.
- Channels.IssueCertificate: the snapshot of findings and the later refresh of it are copies of fields and are left out.
- Laboratory.Services.CreateLocalBill: lines follow the stones' creation, where the code lists them by label; the two differ only past the letter Z, or after a deletion has reused a letter.
- Laboratory.Services.UpdateStone: weight unit and photo are left out.
- References.NextReference: an existing reference whose tail is not a number, which the code fails on, is a refusal.
- References.ParseOrderReference: digits are the ten ASCII digits.
- Palette.ColorTable.Sync: takes the palette as a parameter with distinct names instead of the list of 36 colors.
- Workflow.CertificatesAreBacked: bills are not soft-deleted in these runs, which no endpoint does either; a direct edit of the stone a certificate belongs to is not a step; and a stone's letter beyond the range of one UTF-16 unit is not modelled.
- Soft-deleting and restoring orders, customers and reference rows: not steps; they hide a row from lists and leave what refers to it.
- Resubmitting a bill that needs attention: it writes no row of the tables modelled here beyond the submission result, which is a step.
- Log redaction, phone and region formatting, amount formatting: single-branch facts.
