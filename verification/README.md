# Jawwid Chat: models and proofs

Dafny models of the parts of Jawwid Chat whose correctness no single function shows, with
proofs over every input, every run or every reachable state. `dafny verify dfyconfig.toml`
checks everything.

## What is modelled

**Card payments** (`Checkout*.dfy`). Stripe's webhooks arrive unordered, repeated and
overlapping. `CheckoutDb` has the tables, what Stripe answers, and each database transaction
as a function; `CheckoutService` is the service's webhook side as a class whose methods change
the tables in place and are proved against that specification; `CheckoutRuns` cuts each
delivery at its reads and commits. On top: safety over all interleavings (`CheckoutSafety`),
what a set of events leaves (`CheckoutOrder`), order independence with its exact condition
(`CheckoutAnyOrder`), when a refund that came first is left without a row (`CheckoutStranded`,
`CheckoutRace`), whose word a checkout's status is (`CheckoutStatus`), what each delivery is
answered (`CheckoutAnswers`), and opening a page (`CheckoutOpen`, `CheckoutOnePage`).

**Typed-in money** (`Submit*.dfy`). Staff payments and bank-transfer receipts as transactions
with an advisory key lock (a hash, so keys may share one), an instalment row lock and replay
detection; any number at once, cut off anywhere, never deadlocked.

**Instalments** (`Calendar`, `Instalments`, `BillingTotals`, `Dashboard`). ISO text against day
numbers, month arithmetic and its year-100 limit, due-date schedules, totals per currency, and
the Dashboard's statement against the page's loop.

**Text** (`LeakScan`, `LeakSpellings`, `AppSpec*`, `QuranLoad`, `QuranCopy`, `Rasm`,
`TypedQuran`, with `Numerals`). JS escapes and the leak scan, the app-spec resolver and
renderer, the Quran loader and its COPY block, and the typed-Quran indexes.

**Smaller machines** (`ActionLog*`, `FamilyAccess*`, `CallKit*`). Keyset paging, the life of an
access grant, and the CallKit bridge.

## Where the code can miss what it promises, and exactly when it does not

- The order of events matters unless the set tells of every refund of each confirmed payment
  (`CheckoutAnyOrder.OrderDoesNotMatterIffCovered`).
- A refund told of before its payment can be left without a row once both events are answered
  for good: where the two deliveries overlap, where the payment's is cut off after its commit,
  or where Stripe does not answer its lookup (three runs in `CheckoutRace`). It has its row
  exactly when some sync of the payment read it from Stripe and came to it, or another event of
  it found the payment (`CheckoutStranded.KeptRefundIsRecordedIff`).
- A paid checkout can read expired: `open` read its page as open, and writes so after the
  payment is recorded (`CheckoutRace.OpenCanExpireAPaidCheckout`). It reads complete exactly
  where such a write was not the last (`CheckoutStatus.PaidReadsCompleteIff`).
- A session paid between `open`'s retrieve and its expire is left to its webhook: the call does
  not record it, marks its row expired so no later call looks at it, and asks for the whole
  amount again (`CheckoutOnePage.PaidBetweenIsChargedAgain`); `RecordedIffPaidAtItsRead` and
  `PageStaysWithinIff` say exactly when that cannot be.
- A call of `open` that crashes between Stripe and its row leaves the request without a card
  page, for the next call asks under the same key with a later expiry, which Stripe refuses
  (`CheckoutOnePage.PendingPageIff`, `NoPageWhilePending`); two overlapping calls can leave two
  pages exactly when they counted different numbers of attempts (`OverlapIff`).
- A receipt's file sent again for another request is answered as a replay
  (`Submits.ReceiptForAnotherRequestIsAReplay`): a repeat is refused exactly when its figures
  differ (`Submits.RepeatIsRefusedIff`).
- `unescape` also raises on a bare `\u` or `\x` (`LeakSpellings.RaisesIff`).
- The comment over the action log's order promises that a page boundary loses no line; the
  cursor of a page that ends on a task's line is refused
  (`ActionLogPages.CursorsListEverythingIff`).
- `addMonths` moves a date before the year 100 by 1900 years more (`Instalments.AddMonthsIff`).
- The Dashboard's unassigned count is not the page's when a child sits in another family in
  scope (`Dashboard.TilesAreThePageIff`).
- `drop_component` stops at an inner two-space comment where `component_block` does not
  (`AppSpec.DropTakesTheBlockIff`).
- A lone ya before a text can hide its run, and a text ending in one can lose its own to the
  next word (`TypedQuran.BeforeKeepsIff`, `BothKeepIff`).
- A revoke that began before a grant's end can still end a swept grant
  (`FamilyAccessRuns.EndsTwiceIff`, `ALateRevokeEndsItTwice`).
- A call report refused late forgets the newer screen of the same call
  (`CallKitRuns.ALateRefusalForgetsTheNewScreen`).

## Model

| member | source | states |
|---|---|---|
| `CheckoutSafety.RunsAreSafe` | apps/api/src/billing/checkout.service.ts:229-260 | over every interleaving of deliveries split at their transactions, crashes, sweeps and `open` looking at earlier sessions, and Stripe moving on: one payment per session and per intent, each of a checkout Chat opened, Stripe-paid, with its amount and currency; one refund row per Stripe refund, on the payment of its own intent with Stripe's amount; a decline counted once an event |
| `CheckoutSafety.StepKeeps` | apps/api/src/billing/checkout.service.ts:229-260 | each single step of such a run keeps the invariant those facts follow from |
| `CheckoutSafety.CommitIsRight` | apps/api/src/billing/checkout.service.ts:390-461 | a confirming commit adds exactly the right payment: Stripe-paid, of its own checkout, on terms that still match |
| `CheckoutSafety.RefundKeeps` | apps/api/src/billing/checkout.service.ts:497-560 | a recorded refund is Stripe's own, on its intent's payment, and never a second row |
| `CheckoutSafety.DeclineKeeps` | apps/api/src/billing/checkout.service.ts:284-310 | a declined attempt raises its checkout's count by one for its event alone |
| `CheckoutAnyOrder.OrderDoesNotMatterIffCovered` | apps/api/src/billing/checkout.service.ts:229-260 | one set of events, in any order with any repetition, ends with the same payments, refunds (by id and amount) and declined counts if and only if it tells of every refund of each confirmed payment, or of none; and no row is ever there twice |
| `CheckoutAnyOrder.CoveringSetEndsOneWay` | apps/api/src/billing/checkout.service.ts:316-345 | a covering set ends one way, whatever the order |
| `CheckoutAnyOrder.UncoveredSetEndsTwoWays` | apps/api/src/billing/checkout.service.ts:469-481 | two orders of every set that does not cover end differently |
| `CheckoutOrder.NothingIsLost` | apps/api/src/billing/checkout.service.ts:469-481 | after any order of events: exactly the confirmed sessions are paid, each once; every refund told of before or after its payment is on it; a refund without its payment is kept waiting |
| `CheckoutOrder.SyncRecordsAll` | apps/api/src/billing/checkout.service.ts:348-359 | a sync leaves every refund Stripe lists for the payment recorded |
| `CheckoutStranded.KeptRefundIsRecordedIff` | apps/api/src/billing/checkout.service.ts:316-359 | over every run, whatever overlapped, crashed or could not reach Stripe: a refund kept waiting whose payment is recorded has its row if and only if a sync of that payment began, read from Stripe a list that holds it and was not cut off before its turn, or another event of the refund found the payment |
| `CheckoutStranded.StrandedIff` | apps/api/src/billing/checkout.service.ts:316-359 | so once nothing is running it is stranded exactly when none of these happened |
| `CheckoutStranded.OwnSyncIff` | apps/api/src/billing/checkout.service.ts:469-481 | left to the payment's own sync: recorded if and only if an event of its intent was waiting when the payment's task counted, Stripe then answered with the refund in its list, and the sync was not cut off before it |
| `CheckoutStranded.UncutIff` | apps/api/src/billing/checkout.service.ts:348-359 | where no task is cut off: recorded if and only if some sync of the payment began and Stripe's list, once read, held the refund |
| `CheckoutStranded.ReadAndNotCutOff` | apps/api/src/billing/checkout.service.ts:348-359 | a sync that read the refund and is not cut off ends with its row written, whatever runs beside it |
| `CheckoutRace.OverlapCanStrandARefund` | apps/api/src/billing/checkout.service.ts:316-330 | a run of overlapping deliveries in which the refund's event looks for its payment just before the commit: both events are answered for good and the refund has no row |
| `CheckoutRace.CrashCanStrandARefund` | apps/api/src/billing/checkout.service.ts:390-461 | the same with no overlap, the payment's delivery cut off between its commit and its count of what waits |
| `CheckoutRace.SilentStripeCanStrandARefund` | apps/api/src/billing/checkout.service.ts:469-481 | the same with no overlap, Stripe not answering the listing: the swallowed error |
| `CheckoutRace.SyncRepairs` | apps/api/src/billing/checkout.service.ts:348-359 | a later sync of that payment records the stranded refund |
| `CheckoutStatus.StatusIsSaid` | apps/api/src/billing/checkout.service.ts:107-130 | over every run a checkout's status is what the last step that set it says (the payment's commit, a task that found the payment, or `open` writing what it had read from Stripe), else what the first delivery of its expiry or failure, or sweep that found it expired, says, else open |
| `CheckoutStatus.PaidReadsCompleteIff` | apps/api/src/billing/checkout.service.ts:369-372 | over every run the checkout of a payment reads complete if and only if the last to write it was not `open` marking it expired |
| `CheckoutStatus.PaidIsComplete` | apps/api/src/billing/checkout.service.ts:390-461 | so it reads complete wherever every such write of `open` came before the payment's commit: with webhooks and sweeps alone, always |
| `CheckoutStatus.UnpaidIsAsTold` | apps/api/src/billing/checkout.service.ts:592-596 | a checkout without a payment, where `open` wrote nothing, is open or as the first of its expiry and failure events, or of the sweeps, says |
| `CheckoutStatus.DeliveriesSay` | apps/api/src/billing/checkout.service.ts:229-260 | after any order of deliveries every checkout with a payment is complete, and every other as the first event says that speaks of it |
| `CheckoutStatus.CompleteIffConfirmed` | apps/api/src/billing/checkout.service.ts:229-260 | in the orders NothingIsLost speaks of a checkout opened ends complete if and only if some event confirmed its session |
| `CheckoutRace.OpenCanExpireAPaidCheckout` | apps/api/src/billing/checkout.service.ts:115-124 | a run in which `open` reads the earlier page as open, its payment is recorded, and the row is then marked expired |
| `CheckoutRuns.AloneIsHandleEvent` | apps/api/src/billing/checkout.service.ts:229-260 | a delivery cut at its reads and commits and run undisturbed is the whole handleEvent |
| `CheckoutAnswers.ConfirmAnswers` | apps/api/src/billing/checkout.service.ts:365-461 | a confirming delivery: unknown, recorded before, not what was asked, or recorded now, each exactly under its condition on the rows and Stripe's session, with the rows each writes |
| `CheckoutAnswers.SucceededAnswers` | apps/api/src/billing/checkout.service.ts:268-282 | an intent's success is ignored, thrown back, unknown, awaited or confirmed, as Stripe answers |
| `CheckoutAnswers.FailedAnswers` | apps/api/src/billing/checkout.service.ts:284-310 | a declined attempt counts one more failure on its checkout, or is ignored, thrown back or unknown |
| `CheckoutAnswers.EndedAnswers` | apps/api/src/billing/checkout.service.ts:592-596 | an expired session's event writes expired, a failed one's failed, on a checkout still open, and its own row |
| `CheckoutAnswers.RefundAnswers` | apps/api/src/billing/checkout.service.ts:497-590 | a refund's event by the refund's status: recorded once on its intent's payment, not final, failed after it was recorded, or kept waiting |
| `CheckoutAnswers.ChargeAnswers` | apps/api/src/billing/checkout.service.ts:332-345 | a refunded charge is recorded exactly if its sync added a row, and kept waiting or thrown back exactly where that cannot be |
| `CheckoutAnswers.WaitingIsSynced` | apps/api/src/billing/checkout.service.ts:469-481 | a recorded payment is synced exactly where a deferred event of its intent waits and Stripe answers |
| `CheckoutAnswers.SecondWritesNothing` | apps/api/src/billing/checkout.service.ts:390-461 | whichever transaction comes second with an event writes nothing |
| `CheckoutService.Service.HandleEvent` | apps/api/src/billing/checkout.service.ts:229-260 | dispatches one event and leaves `CheckoutDb.HandleEvent`'s tables and outcome, of which CheckoutOrder.NothingIsLost and CheckoutAnyOrder speak |
| `CheckoutService.Service.IntentSucceeded` | apps/api/src/billing/checkout.service.ts:268-282 | looks up the intent's session and confirms it, or remembers why not; NothingIsLost says which sessions end paid |
| `CheckoutService.Service.IntentFailed` | apps/api/src/billing/checkout.service.ts:284-310 | counts the decline in one transaction with its event; CheckoutSafety.DeclineKeeps says it is counted once |
| `CheckoutService.Service.RefundEvent` | apps/api/src/billing/checkout.service.ts:316-330 | records the refund on its intent's payment, or keeps it waiting; CheckoutStranded says what becomes of it then |
| `CheckoutService.Service.ChargeRefunded` | apps/api/src/billing/checkout.service.ts:332-345 | syncs the payment's refunds, or keeps the event waiting; CheckoutOrder.SyncRecordsAll says what a sync leaves |
| `CheckoutService.Service.SyncRefunds` | apps/api/src/billing/checkout.service.ts:348-359 | the loop over Stripe's list, oldest first: records what has no row, and counts it |
| `CheckoutService.Service.SyncDeferredRefunds` | apps/api/src/billing/checkout.service.ts:469-481 | syncs only where something waits, and swallows a lookup that throws; CheckoutStranded.OwnSyncIff says what that costs |
| `CheckoutService.Service.Confirm` | apps/api/src/billing/checkout.service.ts:365-461 | records a matching session's payment once, completes its checkout, and syncs what waited; CheckoutSafety.CommitIsRight says what is recorded |
| `CheckoutService.Service.RecordRefund` | apps/api/src/billing/checkout.service.ts:497-590 | records a pending or succeeded refund once, or remembers why not; CheckoutSafety.RefundKeeps says on which payment |
| `CheckoutService.Service.MarkCheckout` | apps/api/src/billing/checkout.service.ts:592-596 | marks a checkout still open, and remembers the event; CheckoutOnePage.WebhookIsElsewhere says its page has ended by then |
| `CheckoutService.Service.Remember` | apps/api/src/billing/checkout.service.ts:603-606 | an event's row is written once, a taken id is a duplicate; CheckoutStranded relies on such a row never changing |
| `CheckoutOpen.Opening.Open` | apps/api/src/billing/checkout.service.ts:92-188 | closes the earlier sessions one by one, asks Stripe under the attempt's key, and writes the row: a page's amount, the other payments and the standing card payments together are the request's amount; already paid is answered exactly where the two reach it |
| `CheckoutOpen.ConfirmKeepsRows` | apps/api/src/billing/checkout.service.ts:365-461 | confirming a found session changes no other checkout and takes no payment back |
| `CheckoutOnePage.RunsKeepOnePage` | apps/api/src/billing/checkout.service.ts:105-188 | over every run of non-overlapping calls, page endings, webhooks and sweeps, with each earlier session answering: never two pages of one request a parent could pay, crashes between Stripe and the row included |
| `CheckoutOnePage.OnePageIff` | apps/api/src/billing/checkout.service.ts:105-140 | the answered page is the only payable one if and only if every earlier open session answered and was expired or completed: what the `continue` after a failed retrieve needs |
| `CheckoutOnePage.TrackedIff` | apps/api/src/billing/checkout.service.ts:105-140 | the request's pages stay findable if and only if no expire failed on a session that was not completed: what the swallowed expire error needs |
| `CheckoutOnePage.RecordedIffPaidAtItsRead` | apps/api/src/billing/checkout.service.ts:107-134 | of every earlier session that Stripe holds as paid when the loop ends, matching its row and unrecorded when the call began: the call recorded it if and only if its retrieve answered and already found it paid |
| `CheckoutOnePage.PageStaysWithinIff` | apps/api/src/billing/checkout.service.ts:107-160 | the page asks for what was owed less what the loop recorded; with what Stripe holds beside it as paid that stays within what was owed if and only if no earlier session was paid between retrieve and expire, or paid and not retrieved |
| `CheckoutOnePage.PaidBetweenIsChargedAgain` | apps/api/src/billing/checkout.service.ts:115-124 | the swallowed expire error on a session paid meanwhile: nothing recorded, its row marked expired, and the whole amount asked for again |
| `CheckoutOnePage.CoveredIsNotChargedAgain` | apps/api/src/billing/checkout.service.ts:112-160 | where an earlier session was paid before the call, and is retrieved: it is recorded by the call itself, nothing is opened if it covers the rest, and else the page asks for at most what is left |
| `CheckoutOnePage.PendingPageIff` | apps/api/src/billing/checkout.service.ts:131-186 | a page whose call crashed before its row is answered to a later call if and only if that asks for the same amount, currency and second of expiry under the same key; else the call is refused |
| `CheckoutOnePage.NoPageWhilePending` | apps/api/src/billing/checkout.service.ts:131-186 | until then no call answers a page for the request, and its key stays the one refused |
| `CheckoutOnePage.OverlapIff` | apps/api/src/billing/checkout.service.ts:131-186 | two overlapping calls of one request, past their loops, leave two payable pages if and only if they counted different numbers of attempts |
| `CheckoutOnePage.PageAsksTheRemainder` | apps/api/src/billing/checkout.service.ts:131-186 | the answered page's row asks for what the request's amount leaves beyond its other payments and its standing card payments, and Stripe's session for the same on the same terms, a page that a crash left included |
| `CheckoutOnePage.AlreadyPaidIff` | apps/api/src/billing/checkout.service.ts:131-134 | already paid is answered exactly to a payable request whose other payments and standing card payments reach its amount |
| `CheckoutOnePage.LoopReads` | apps/api/src/billing/checkout.service.ts:107-130 | after the loop each earlier row reads what Stripe answered of its session: expired of an open or expired one, complete of a complete one, once paid only with its payment, and as it was where there was no answer |
| `CheckoutOnePage.WebhookIsElsewhere` | apps/api/src/billing/checkout.service.ts:229-260 | a truthful webhook never takes a page off the list while a parent can still pay it |
| `Submits.Desk.RecordPayment` | apps/api/src/billing/billing.service.ts:485-554 | one undisturbed staff submit: replay, refusal or one row of exactly what is still owed |
| `Submits.Desk.StandingSum` | apps/api/src/billing/billing.service.ts:529-529 | the loop that adds up what stands on an instalment |
| `Submits.Desk.SubmitReceipt` | apps/api/src/billing/parent-payments.service.ts:80-155 | one undisturbed receipt: replay, refusal or one row |
| `Submits.CutIsWhole` | apps/api/src/billing/billing.service.ts:501-552 | a submit cut at its lock, read and write statements, run undisturbed, is the whole one |
| `Submits.PaymentAnswers` | apps/api/src/billing/billing.service.ts:485-554 | an undisturbed staff submit: not found, replayed or refused, not open, covered, or recorded, each exactly under its condition; the row recorded brings what stands to the instalment's amount |
| `Submits.ReceiptAnswers` | apps/api/src/billing/parent-payments.service.ts:80-155 | an undisturbed receipt: answered by its upload's row if there is one, else one row of what was said |
| `Submits.RepeatIsRefusedIff` | apps/api/src/billing/idempotency.ts:41-44 | once a submit is recorded, another under its key writes nothing, and is refused if and only if what it says of the instalment or the figures differs |
| `Submits.ReceiptForAnotherRequestIsAReplay` | apps/api/src/billing/parent-payments.service.ts:96-103 | the same file and figures sent for another request are answered as a replay, for the comparison leaves the request out |
| `SubmitRuns.RunsAreSafe` | apps/api/src/billing/billing.service.ts:501-552 | over every run of any number of submits with the same key, other keys or none, cut off anywhere, with voids and other payments between: staff never record more than an instalment's amount, each key and each upload has one row, each submit wrote at most one, every answer given stays true |
| `SubmitRuns.StepKeeps` | apps/api/src/billing/billing.service.ts:501-552 | each single step of such a run keeps the invariant those facts follow from |
| `SubmitRuns.OneRecorderPerKey` | apps/api/src/billing/idempotency.ts:20-22 | of all submits under one key at most one is recorded, for payments and for receipts |
| `SubmitRuns.AnswersAreExact` | apps/api/src/billing/idempotency.ts:41-44 | replay exactly when the key's row says the same, refusal exactly when it says otherwise, nothing written by either; covered only when what stands reaches the amount; the insert itself never fails |
| `SubmitRuns.InsertSucceeds` | apps/api/src/billing/billing.service.ts:530-549 | under the key's lock and the row's lock neither unique key can be hit, whatever keys share a lock |
| `SubmitRuns.ProceedingKeepsLocks` | apps/api/src/billing/idempotency.ts:20-22 | no two transactions hold one advisory lock or one row lock |
| `SubmitLive.AllCanEnd` | apps/api/src/billing/billing.service.ts:517-529 | no deadlock and no endless wait: from every reachable state the submits alone can all be run to their ends, in a bounded number of steps |
| `SubmitLive.HoldersAreAhead` | apps/api/src/billing/billing.service.ts:517-529 | whoever holds a lock another submit wants is further on, so no cycle of waits exists |
| `SubmitLive.CommitIsAlone` | apps/api/src/billing/billing.service.ts:525-549 | a concurrent commit writes what the undisturbed submit would write at that moment if and only if the instalment was not closed and nothing it counted was voided since it looked |
| `SubmitLive.ReceiptCommitIsAlone` | apps/api/src/billing/parent-payments.service.ts:121-155 | a concurrent receipt's commit always is what the undisturbed one would write |
| `LeakSpellings.RoundTrip` | scripts/lessons/check-family-bundle.py:173-197 | unescape undoes escaped, in either case, for every backslash-free text of scalar values, surrogate pairs included |
| `LeakSpellings.SpellingsAreUndone` | scripts/lessons/check-family-bundle.py:173-185 | any mix of spellings of a text (braces, four or two hex digits, the letters JS gives a meaning, or the character itself), at an escape boundary anywhere in a file, is that text once unescaped |
| `LeakSpellings.ScanIsComplete` | scripts/lessons/check-family-bundle.py:200-223 | a string shown raw, spelled in any mix, or spelled twice over is always reported |
| `LeakSpellings.ShownIsReported` | scripts/lessons/check-family-bundle.py:200-223 | a scan that comes to its end has a hit for every listed string a scanned file shows |
| `LeakSpellings.DecodeUnits` | scripts/lessons/check-family-bundle.py:184-185 | joining surrogate pairs gives every scalar text back, and no text begins or ends inside a pair |
| `LeakSpellings.HexIff` | scripts/lessons/check-family-bundle.py:177-180 | the digits read are those of hexadecimal text, in either case, and the number they write |
| `LeakSpellings.UnitsIff` | scripts/lessons/check-family-bundle.py:195-195 | a pair of units is the one RFC 2781 gives its character |
| `LeakSpellings.EscapedIsAscii` | scripts/lessons/check-family-bundle.py:188-197 | what escaped writes is ASCII, and an ASCII text stays as it is |
| `LeakSpellings.RaisesIff` | scripts/lessons/check-family-bundle.py:173-183 | unescape raises exactly on an escape without its digits or past the last code point, at a boundary |
| `LeakSpellings.BareEscapeRaises` | scripts/lessons/check-family-bundle.py:175-180 | a lone backslash-u stops the scan, though it names no code point |
| `LeakScan.Scan` | scripts/lessons/check-family-bundle.py:200-223 | the files in order: it raises exactly when a scanned file does, every hit is true, every shown string is a hit |
| `LeakScan.Escape` | scripts/lessons/check-family-bundle.py:188-197 | the loop writes each character above ASCII as four-digit escapes of its UTF-16 units |
| `LeakScan.ShownAs` | scripts/lessons/check-family-bundle.py:216-222 | the form under which a string is reported; LeakSpellings.ShownIsReported says that each shown string has one |
| `AppSpec.Resolve` | scripts/infra/app-spec.py:369-414 | the walk over the lines: one item after the other, exactly the text, names and errors the specification says |
| `AppSpec.ResolveBlock` | scripts/infra/app-spec.py:388-400 | one env entry is refused, filled, left out or missing; AppSpecText.BlockIsKept says what is kept of it |
| `AppSpec.ResolveLine` | scripts/infra/app-spec.py:401-414 | any other line is kept, filled, or named in an error; AppSpecText.ResolveKeepsTheText says where it stays |
| `AppSpec.DropComponent` | scripts/infra/app-spec.py:427-436 | takes out one stretch of lines: the comments directly above a name and everything to the next end |
| `AppSpec.DropTakesTheBlockIff` | scripts/infra/app-spec.py:521-530 | what is dropped after the name is the component if and only if no comment stands inside it at two spaces |
| `AppSpecText.ResolveKeepsTheText` | scripts/infra/app-spec.py:348-418 | without errors every entry is kept whole with the value the environment supplies, or left out whole if its variable is unset and its rule optional; every other line stays, in order |
| `AppSpecText.NoErrorsIff` | scripts/infra/app-spec.py:388-410 | there is no error exactly when every item is in order: exact entries, of names the environment supplies or optional ones it does not have, and whole values it supplies |
| `AppSpecText.NamesIff` | scripts/infra/app-spec.py:388-413 | a name is said to be missing exactly if it is not supplied and stands in a value or in an exact entry whose rule is not optional; dropped are exactly the optional entries not supplied, filled exactly the names supplied |
| `AppSpecText.ValueIff` | scripts/infra/app-spec.py:356-367 | a name has a value exactly if its variable does, and the two domains exactly the host of an https URL without a port that their origin's variable holds |
| `AppSpecText.ParseKeyIff` | scripts/infra/app-spec.py:335-335 | the key-line pattern, both ways |
| `AppSpecText.ParseValueIff` | scripts/infra/app-spec.py:336-336 | the value-line pattern, both ways: indentation, perhaps a dash, a small-letter key, a colon, and one placeholder to the end |
| `AppSpecText.PlaceholderIff` | scripts/infra/app-spec.py:134-134 | a placeholder is found exactly where a dollar, a brace, a name and a brace stand |
| `AppSpecText.ContinuesIff` | scripts/infra/app-spec.py:383-386 | an entry goes on exactly over lines two spaces deeper that are no list items there |
| `AppSpecText.RefusedIff` | scripts/infra/app-spec.py:387-406 | an entry is refused exactly if its value is not its own placeholder alone, and a line, by its number, exactly if its placeholder is not its whole value |
| `AppSpecText.EndsIff` | scripts/infra/app-spec.py:427-436 | a component ends exactly at a name or a top key, and what is dropped at a comment of that depth as well |
| `AppSpecText.BlockIsKept` | scripts/infra/app-spec.py:387-399 | an exact entry loses no line, and changes only where its own placeholder stands |
| `AppSpecTemplate.RenderedKeys` | scripts/infra/app-spec.py:214-331 | either environment's rendered spec, once resolved, has the API's, Admin Web's and the worker's keys that are set, in order and of the manifest's types, and no other: what `blocks` then yields |
| `AppSpecTemplate.RenderedKeysAreGiven` | scripts/infra/app-spec.py:156-159 | a key is there, of its component and its type, exactly of a manifest row that is allowed here and supplied (the worker's without the approvals key), or of Admin Web's five |
| `AppSpecTemplate.RequiredIsSupplied` | scripts/infra/app-spec.py:393-397 | a required row the environment does not supply is said to be missing, and never left out |
| `AppSpecTemplate.RenderedLaunch` | scripts/infra/app-spec.py:427-479 | what drop_component takes out of it is exactly the Redis component with its comments, and every key stays |
| `AppSpecTemplate.FixedLinesAreALayout` | scripts/infra/app-spec.py:229-330 | the lines render itself writes, whatever their comments say, hold no entry, open one component each, and end the entries before them |
| `AppSpecTemplate.RedisIsItsOwn` | scripts/infra/app-spec.py:183-211 | the Redis component's lines end nothing and hold no placeholder, and no fixed line before it names it |
| `AppSpecKeys.RenderResolves` | scripts/infra/app-spec.py:214-331 | any template of such fixed lines resolves component by component, each row's entry filled or gone |
| `AppSpecKeys.EnvBlockIsExact` | scripts/infra/app-spec.py:162-168 | a rendered entry is one the walk takes as exact |
| `AppSpecKeys.EnvBlockEnds` | scripts/infra/app-spec.py:380-386 | a rendered entry is taken as one item of four lines, wherever it stands |
| `AppSpecLaunch.KeysAreTheManifests` | scripts/infra/app-spec.py:507-518 | of any such template: the API's keys are the allowed rows that are set, the worker's those less the API's own, in the manifest's order, each of its type, and there are no others |
| `AppSpecLaunch.LaunchDropsRedisAlone` | scripts/infra/app-spec.py:427-479 | of any such template at launch exactly the Redis component and its comments are gone, and every key stays |
| `AppSpecLaunch.RedisIsNamedOnce` | scripts/infra/app-spec.py:427-436 | before it the resolved text neither names it nor ends in a comment of its depth, whatever the settings fill in |
| `AppSpecLaunch.TypeIff` | scripts/infra/app-spec.py:507-518 | what blocks reads as a type, both ways |
| `AppSpecLaunch.ApplyRedisPhase` | scripts/infra/app-spec.py:439-479 | only production at launch changes the text; there is no error if and only if the phase, the link bases, the Redis URL and the proxy settings are allowed ones |
| `ActionLogPages.CursorsListEverythingIff` | apps/api/src/action-log/action-log.service.ts:79-136 | following the cursors lists every line once, newest first by the lines' own time, source and number or uuid, in pages of at most 200, if and only if no page but the last ends on a task's line |
| `ActionLogPages.PageAt` | apps/api/src/action-log/action-log.service.ts:114-136 | each page is the next lines, with a cursor exactly while lines are left |
| `ActionLogPages.EveryPageIsNewestFirst` | apps/api/src/action-log/action-log.service.ts:114-119 | on every page, whatever the cursor: later times first; at one time tasks before cases before audit lines; of one source the greater number, or the greater uuid, first |
| `ActionLogPages.LessIff` | apps/api/src/action-log/action-log.service.ts:79-88 | the key order is that order of the lines' own fields |
| `ActionLogPages.ATaskAtTheEndStopsIt` | apps/api/src/action-log/action-log.service.ts:172-185 | a first page of 200 ending on a task's line: its cursor is refused by the next call |
| `ActionLogPages.CursorIsRead` | apps/api/src/action-log/action-log.service.ts:168-185 | decode gives back what encode wrote, except for a task |
| `ActionLogPages.DecodeIff` | apps/api/src/action-log/action-log.service.ts:172-190 | a cursor is read exactly of an audit or a case line whose key has 1 to 40 hex digits and dashes |
| `ActionLogPages.BelowSorted` | apps/api/src/action-log/action-log.service.ts:115-119 | the cursor's predicate and the order commute |
| `ActionLogPages.SortSorts` | apps/api/src/action-log/action-log.service.ts:118-118 | the order leaves no two lines tied |
| `ActionLog.PaddedOrderIsNumeric` | apps/api/src/action-log/action-log.service.ts:79-88 | zero-padded text orders as the numbers do, and names them |
| `Numerals.TextLessIff` | apps/api/src/action-log/action-log.service.ts:79-88 | one text is below another where it ends, or has the smaller character, at the first place they differ |
| `QuranLoad.Verify` | scripts/db/load-quran.py:95-123 | accepts only rows that are exactly the ayat there are, each once and not empty, answered in the Quran's order; refuses only for a stated lack; never by the per-surah count |
| `QuranLoad.WholeIff` | scripts/db/load-quran.py:100-116 | as many known rows as ayat and none twice is the same as a bijection with the places of any table |
| `QuranLoad.SurahCountsAgree` | scripts/db/load-quran.py:113-115 | the per-surah count can never differ by then |
| `QuranLoad.CountEachSurah` | scripts/db/load-quran.py:113-115 | the loop over the counts always agrees |
| `QuranLoad.OrderIsUnique` | scripts/db/load-quran.py:116-116 | the ordered rows are fixed by the rows |
| `QuranLoad.SplitBasmalaRejoins` | scripts/db/load-quran.py:63-75 | head and verse with one space are the text, and a head is split off exactly where the rule says |
| `QuranLoad.BasmalaRefusedIff` | scripts/db/load-quran.py:63-75 | refused are exactly a first ayah of surah 9 headed by an accepted Basmala, and a first ayah of any other surah but the first with none before a verse |
| `QuranLoad.Parse` | scripts/db/load-quran.py:78-92 | the loop over the lines: the rows verbatim, or the first refusal |
| `QuranLoad.MarkIsNoText` | scripts/db/load-quran.py:79-82 | a byte-order mark at the start is taken away, and nothing else |
| `QuranLoad.RowLineParses` | scripts/db/load-quran.py:84-91 | a row's text is kept as it stands, bars included, with or without a carriage return |
| `QuranLoad.ReadIff` | scripts/db/load-quran.py:84-91 | a row is read exactly of digits, a bar, digits, a bar and the text; any other line but a skipped one is refused |
| `QuranLoad.SkippedIff` | scripts/db/load-quran.py:84-86 | skipped are exactly blank lines and comments |
| `QuranLoad.SkippingChangesNothing` | scripts/db/load-quran.py:84-86 | such a line anywhere changes no row |
| `QuranLoad.SeenOf` | scripts/db/load-quran.py:104-112 | the loop over the rows refuses exactly a place twice, an unknown place or an empty text |
| `QuranCopy.SqlReadsBack` | scripts/db/load-quran.py:134-143 | the printed script, from its data on, reads back under COPY's text format as exactly the rows, and ends where its data ends |
| `QuranCopy.FourAreOne` | scripts/db/load-quran.py:126-127 | the four replacements in turn are one escape per character |
| `QuranCopy.CopyIsUndone` | scripts/db/load-quran.py:126-127 | reading undoes the escape, and no raw tab, newline or carriage return is printed |
| `QuranCopy.EscapesAre` | scripts/db/load-quran.py:126-127 | backslash, tab, newline and carriage return are printed as a backslash and one character each, every other character as itself |
| `QuranCopy.CopyIsInjective` | scripts/db/load-quran.py:126-127 | no two texts are printed alike |
| `QuranCopy.Sql` | scripts/db/load-quran.py:134-143 | header, one line a row, the end mark and the trailer, in that order |
| `Rasm.Fold` | scripts/lessons/rasm.py:35-45 | the loop over the characters gives the letter skeleton |
| `Rasm.SkeletonTwice` | scripts/lessons/rasm.py:35-45 | folding twice is folding once |
| `Rasm.FoldTable` | scripts/lessons/rasm.py:26-44 | marks, alefs and hamzas are nothing, a final ya is a ya, a ta marbuta a ha, every other letter itself, anything else parts words |
| `Rasm.WawDaggerGoes` | scripts/lessons/rasm.py:33-38 | a waw and the dagger alef after it go together, and nothing else goes with them |
| `Rasm.EdgeFormsAre` | scripts/lessons/rasm.py:61-67 | a word of three letters or more may shed a waw, fa, ba or lam from its front |
| `Rasm.WordsAcrossSpace` | scripts/lessons/rasm.py:35-45 | the words of two texts with a space between are the words of each |
| `Rasm.RunWords` | scripts/lessons/rasm.py:48-58 | the loop joins a lone ya to the word after it |
| `Rasm.YaJoinedSplitsIff` | scripts/lessons/rasm.py:48-58 | joined words of two halves are those of the whole if and only if no lone ya stands at the cut |
| `TypedQuran.QuranIndex` | scripts/lessons/lesson-audio-texts.py:69-83 | the index holds exactly the full-length runs and the whole shorter ayat of two words or more |
| `TypedQuran.RunsAre` | scripts/lessons/lesson-audio-texts.py:75-83 | runs are four words long, or a whole ayah of two or three |
| `TypedQuran.TypedQuran` | scripts/lessons/lesson-audio-texts.py:86-90 | flagged exactly when some window of the text is in the index |
| `TypedQuran.SurroundingKeepsTheFlag` | scripts/lessons/lesson-audio-texts.py:86-90 | words around a flagged text never unflag it |
| `TypedQuran.RunsOf` | scripts/lessons/check-arabic-lesson.py:467-475 | every run of three, its edge words in each form |
| `TypedQuran.RunFormsAre` | scripts/lessons/check-arabic-lesson.py:467-475 | runs are three words long, the first and the last in any of their forms |
| `TypedQuran.QuranGrams` | scripts/lessons/check-arabic-lesson.py:486-494 | the runs of every surah, across its ayat |
| `TypedQuran.QuranRuns` | scripts/lessons/check-arabic-lesson.py:478-483 | flagged exactly when a run of the text is one of them |
| `TypedQuran.BeforeKeepsIff` | scripts/lessons/check-arabic-lesson.py:478-483 | words before and after keep the flag of every text that holds the second cut, whatever the surahs, if and only if the words before do not end in a lone ya |
| `TypedQuran.BothKeepIff` | scripts/lessons/check-arabic-lesson.py:478-483 | they keep the flag of every text if and only if besides no word stands after it |
| `TypedQuran.SurroundingKeepsTheRun` | scripts/lessons/check-arabic-lesson.py:478-483 | for any set of runs: a text's flag stays where neither cut has a lone ya before it |
| `TypedQuran.ReadsQuran` | scripts/lessons/check-arabic-lesson.py:478-494 | quran_runs over the answer of quran_grams: true exactly when a run of the text is one of some surah |
| `TypedQuran.LoneYaTakesTheFlag` | scripts/lessons/rasm.py:48-58 | for every text before it that ends in a lone ya: a text and a surah whose flag it takes away |
| `TypedQuran.TheYaAlone` | scripts/lessons/rasm.py:48-58 | the ya by itself is such a text |
| `TypedQuran.LoneYaLosesItsRun` | scripts/lessons/rasm.py:48-58 | for every text after it that has a word: a text ending in a lone ya, and a surah, whose flag it takes away |
| `Calendar.DayNumberOrder` | apps/api/src/billing/instalment.ts:34-36 | days count in the order of dates |
| `Calendar.DayByDay` | apps/api/src/billing/instalment.ts:34-36 | days count from the first of January 1970, one more for each day, over month and year ends |
| `Calendar.MonthsAre` | apps/api/src/billing/instalment.ts:39-45 | the lengths of the months, and of February by the leap-year rule |
| `Calendar.IsoOrder` | apps/api/src/billing/instalment.ts:15-20 | text order of ISO dates is the order of dates |
| `Instalments.StatusIsTheSignOfDays` | apps/api/src/billing/instalment.ts:15-36 | overdue, due and upcoming are exactly the negative, zero and positive signs of daysFrom, for all valid dates |
| `Instalments.DaysShownIsHonest` | apps/api/src/billing/billing.service.ts:231-231 | the days shown are never negative, and of an open row zero on its due day alone |
| `Instalments.CompareIsTotal` | apps/api/src/billing/instalment.ts:24-31 | no two different rows are tied, and the comparison is antisymmetric |
| `Instalments.CompareIsTransitive` | apps/api/src/billing/instalment.ts:24-31 | the comparison is transitive |
| `Instalments.CompareIff` | apps/api/src/billing/instalment.ts:22-31 | before another stands an overdue row, then one due today, then one to come by date, then a paid one by latest date, ties by id |
| `Instalments.QueueStandsInOrder` | apps/api/src/billing/billing.service.ts:254-263 | the sorted queue is exactly a list in that order |
| `Instalments.QueueIsUnique` | apps/api/src/billing/billing.service.ts:254-263 | rows with ids of their own have one sorted queue |
| `Instalments.SortedIsAQueue` | apps/api/src/billing/billing.service.ts:254-263 | the sort leaves no two rows tied, so its answer is that queue |
| `Instalments.AddMonthsIff` | apps/api/src/billing/instalment.ts:39-45 | the months are added as a calendar adds them if and only if the year is 100 or later |
| `Instalments.MovedIsRight` | apps/api/src/billing/instalment.ts:39-45 | a real date exactly that many months on, on its day or the month's last |
| `Instalments.AddMonthsMoves` | apps/api/src/billing/instalment.ts:39-45 | the text answered is that date's |
| `Instalments.MoreMonthsIsLater` | apps/api/src/billing/instalment.ts:39-45 | strictly later for each month more |
| `Instalments.LaterDateIsNotEarlier` | apps/api/src/billing/instalment.ts:39-45 | monotone in the date |
| `Instalments.MovingTwice` | apps/api/src/billing/instalment.ts:39-45 | moving twice is never later than once, equal up to day 28, and equal exactly when the first move loses no day the second would keep |
| `Instalments.Schedule` | apps/api/src/billing/billing.service.ts:353-381 | accepts exactly a plan within its limits, a custom one only in due order, and answers its due dates |
| `Instalments.GeneratedIsInOrder` | apps/api/src/billing/billing.service.ts:368-381 | a generated plan is strictly in due order and its day never drifts |
| `BillingTotals.MyTotals` | apps/api/src/billing/billing.service.ts:673-705 | per currency: paid is the standing payments net of refunds plus, of the instalments marked paid, only what no payment covers |
| `BillingTotals.StaffTotals` | apps/api/src/billing/billing.service.ts:976-1021 | the staff's totals are the same, plus voided payments that name nobody |
| `BillingTotals.SameTotalsIff` | apps/api/src/billing/billing.service.ts:1032-1054 | what the staff's page and the parents' page answer is the same in every currency if and only if every void that still carries money is named |
| `BillingTotals.NoOrderMatters` | apps/api/src/billing/billing.service.ts:1032-1054 | the order of rows and payments does not matter, and overdue never passes outstanding |
| `BillingTotals.TotalsOf` | apps/api/src/billing/billing.service.ts:1032-1054 | the two loops over a map: one sum for each currency a line or a standing payment names |
| `BillingTotals.ByInstalment` | apps/api/src/billing/payments-read.service.ts:216-226 | the loop that adds up the standing payments of each instalment |
| `BillingTotals.LineIsWhole` | apps/api/src/billing/billing.service.ts:983-1003 | paid and remaining are together the amount, or what covers it if that is more |
| `BillingTotals.VoidedOwesNothing` | apps/api/src/billing/billing.service.ts:983-1003 | a voided instalment owes nothing and has no status |
| `BillingTotals.StatusShown` | apps/api/src/billing/billing.service.ts:983-1003 | the status shown is paid where marked so, else as the due date stands to today |
| `Dashboard.TilesAreThePageIff` | apps/api/src/billing/billing.service.ts:900-930 | overdue and due are the page's counts always; unassigned is if and only if no open row is about a child of another family in scope who has a supervisor |
| `Dashboard.TilesAgainstPage` | apps/api/src/billing/billing.service.ts:177-246 | the tile counts one more unassigned for each such row |
| `Dashboard.ChildrenAtHome` | apps/api/src/billing/billing.service.ts:886-899 | where each child belongs to its row's family the counts agree |
| `Dashboard.ListCounts` | apps/api/src/billing/billing.service.ts:214-246 | the loop over the rows read counts each by its status, and the open ones nobody is responsible for |
| `Dashboard.CountsAreRows` | apps/api/src/billing/billing.service.ts:177-246 | each count is the number of standing rows, of families of the organisation in the reader's scope, that are overdue, due, to come, paid, or open with nobody responsible |
| `FamilyAccessRuns.EndsTwiceIff` | apps/api/src/account-admin/family-access.service.ts:138-209 | over every run, revokes committing later than they began: a grant has both ends if and only if some revoke took it when a sweep had marked it, having begun before its end |
| `FamilyAccessRuns.RunsEndOnce` | apps/api/src/account-admin/family-access.service.ts:138-209 | so where every revoke is at the clock's own time no grant has both ends |
| `FamilyAccessRuns.RunsAreKept` | apps/api/src/account-admin/family-access.service.ts:138-209 | over every run each end is within its time, and the log has one record of an end exactly when the row has it |
| `FamilyAccessRuns.StepKeeps` | apps/api/src/account-admin/family-access.service.ts:138-209 | each grant, revoke and step of a sweep keeps that |
| `FamilyAccessRuns.EndedStaysEnded` | apps/api/src/account-admin/family-access.service.ts:271-276 | a grant that is not active never is again, and how it ended never changes |
| `FamilyAccessRuns.RevokeOfSweptIff` | apps/api/src/account-admin/family-access.service.ts:149-153 | revoke takes a swept grant exactly when its own time is before the end |
| `FamilyAccessRuns.ALateRevokeEndsItTwice` | apps/api/src/account-admin/family-access.service.ts:146-154 | such a run from its start: granted, run out, swept, and revoked by a transaction that began before the end |
| `FamilyAccessRuns.ASweepAheadEndsItTwice` | apps/api/src/account-admin/family-access.service.ts:180-184 | a sweep told a time ahead of the clock does the same |
| `FamilyAccess.SweepsFinish` | apps/api/src/account-admin/family-access.service.ts:180-209 | repeated sweeps of 200 rows write every due expiry, each once |
| `FamilyAccess.SweepShrinksTheDue` | apps/api/src/account-admin/family-access.service.ts:187-208 | one sweep alone writes each grant of its batch, and leaves the rest due |
| `FamilyAccess.StatusIsTheRule` | apps/api/src/account-admin/family-access.service.ts:266-266 | the status shown is the rule of an active grant |
| `FamilyAccess.GrantIsActiveIff` | apps/api/src/account-admin/family-access.service.ts:78-81 | a grant is one more row and one log record, active exactly from its own time for so many hours |
| `FamilyAccess.ABatchIs200` | apps/api/src/account-admin/family-access.service.ts:184-189 | a sweep takes at most 200 due rows, and all of them where there are fewer |
| `FamilyAccess.SweepCountsItsRecords` | apps/api/src/account-admin/family-access.service.ts:187-208 | a sweep's count is the number of records it writes |
| `FamilyAccess.Service.GrantAccess` | apps/api/src/account-admin/family-access.service.ts:64-90 | a window of whole hours from the clock, or a refusal |
| `FamilyAccess.Service.Revoke` | apps/api/src/account-admin/family-access.service.ts:146-166 | changes the row and logs once, or answers that it has ended |
| `FamilyAccess.Service.SweepExpired` | apps/api/src/account-admin/family-access.service.ts:180-209 | the loop over the batch: marks and logs each grant no revoke got to first, and counts them |
| `FamilyAccess.Service.ActiveGrant` | apps/api/src/account-admin/family-access.service.ts:271-276 | an active grant for that person and family, the one that ends last, if there is one |
| `CallKitRuns.RunsAreSafe` | ios/Runner/CallKitBridge.swift:76-124 | over every run: the two dictionaries are inverses, each push's completion runs once and only after its report, Dart is handed what was said in order, once each, none before it is ready |
| `CallKitRuns.StepKeeps` | ios/Runner/CallKitBridge.swift:136-242 | every event keeps all of that |
| `CallKitRuns.RefusalForgetsItsOwnIff` | ios/Runner/CallKitBridge.swift:174-184 | a refused report takes only its own mapping if and only if its call has no newer one |
| `CallKitRuns.AcceptedIsSaid` | ios/Runner/CallKitBridge.swift:185-190 | an accepted report is said to Dart with its call, and its conversation where the push named one |
| `CallKitRuns.PushIsKept` | ios/Runner/CallKitBridge.swift:136-176 | what a push says is what its report keeps: a new call, the one on the screen, or none that can be named |
| `CallKitRuns.SendSays` | ios/Runner/CallKitBridge.swift:110-116 | a message waits while Dart is not ready or there is no channel, else goes straight through |
| `CallKitRuns.DismissalSays` | ios/Runner/CallKitBridge.swift:216-235 | a known call's screen ends once, answered elsewhere or failed exactly if Dart says so |
| `CallKitRuns.ALateRefusalForgetsTheNewScreen` | ios/Runner/CallKitBridge.swift:179-183 | a reset, the same call again, and the first report refused late: the new screen loses its mapping |
| `CallKit.Bridge.ReportIncoming` | ios/Runner/CallKitBridge.swift:136-211 | every push reports at once: a new call, the one on the screen, or one to be ended; CallKitRuns.RunsAreSafe says each completes once |
| `CallKit.Bridge.ReportAnswered` | ios/Runner/CallKitBridge.swift:174-192 | tells Dart of a call or forgets it, and completes the push; CallKitRuns.RefusalForgetsItsOwnIff says what else it may forget |
| `CallKit.Bridge.Drain` | ios/Runner/CallKitBridge.swift:118-124 | hands over the queue in order and empties it |
| `CallKit.Bridge.Send` | ios/Runner/CallKitBridge.swift:110-116 | delivers, or queues while Dart is not ready |
| `CallKit.Bridge.Attach` | ios/Runner/CallKitBridge.swift:76-81 | the channel is there from then on |
| `CallKit.Bridge.Ready` | ios/Runner/CallKitBridge.swift:89-92 | from then on messages go straight through |
| `CallKit.Bridge.Forget` | ios/Runner/CallKitBridge.swift:237-241 | takes a call out of both dictionaries |
| `CallKit.Bridge.Dismiss` | ios/Runner/CallKitBridge.swift:216-220 | ends the call's screen with the mapped reason, and forgets it |
| `CallKit.Bridge.PerformAnswer` | ios/Runner/CallKitBridge.swift:256-266 | tells Dart and fulfils, or fails an unknown call |
| `CallKit.Bridge.PerformEnd` | ios/Runner/CallKitBridge.swift:268-278 | tells Dart, forgets and fulfils, or fails an unknown call |
| `CallKit.Bridge.ProviderDidReset` | ios/Runner/CallKitBridge.swift:248-254 | forgets every call and tells Dart nothing |

## Left out

- Stripe's network, Prisma, PostgreSQL itself, controllers, rate limits and mail: Stripe's answers, crashes and lock grants are steps or parameters; unique keys, row and advisory locks and atomic transactions are modelled.
- Database triggers and guards: nothing here rests on what a trigger refuses.
- CheckoutService.Service.HandleEvent: does not model audit rows, mails, the fee and card facts of `intentFacts`, `failureCode` and `lastFailedAt`, which depend on arrival order; intent and session ids are taken as well formed.
- CheckoutAnyOrder.OrderDoesNotMatterIffCovered: takes Stripe's lookups to answer, events to carry their intents and no refund to fail or be cancelled (`Settled`); deliveries do not overlap there.
- CheckoutStatus.StatusIsSaid: the expiry of a request's pages by staff (payments.service.ts) is not a step; it writes only after Stripe has expired the page.
- CheckoutRace.SyncRepairs: which payments the reconciler lists, and when, is not modelled.
- CheckoutOpen.Opening.Open: the key of a guest's attempt, the Stripe customer, the return URL and the request's expiry clock are not modelled; `payable` is given; of what a reused key must repeat, the amount, the currency and the second of expiry are modelled, not the texts.
- CheckoutOnePage.PageStaysWithinIff: Stripe's intents are taken to be one session's each, and the amounts of checkout rows to be positive; a session that was not retrieved is taken as it stood when the call began.
- CheckoutOnePage.RunsKeepOnePage: calls for one request do not overlap, every retrieve answers, and expire fails only on a completed session; OnePageIff, TrackedIff and OverlapIff say what each assumption buys.
- Submits.Desk.RecordPayment: the checks of method, date and role before the first read, the invoice and the audit row are left out; a generated id is new.
- Submits.Desk.SubmitReceipt: the file's sniffing, the limit of pending receipts, payability and the cap by what is owed are refusals without a write, so they are failed submits; the cap is read outside the transaction and is not claimed for concurrent receipts.
- LeakScan.Scan: the walk over directories and the UTF-8 decoding are inputs; `evidence` is not modelled.
- AppSpecTemplate.RenderedKeys: manifest names are taken as upper case, the texts of the template's comments are parameters, and a type is read as an ASCII word.
- AppSpecLaunch.ApplyRedisPhase: the patterns of a link base and of a managed URL are parameters; the words of each error are not modelled.
- AppSpec.Resolve: json.dumps is a parameter, and errors are kept as a set.
- ActionLogPages.CursorsListEverythingIff: base64url and JSON are taken to read back what they wrote; from and to are fixed; who may read is left out.
- QuranLoad.Verify: SHA-256 is told, not computed; str.isdigit is taken for ASCII digits; the table is given in its order.
- QuranCopy.SqlReadsBack: COPY's octal and hexadecimal escapes, which are never printed, are not read.
- Rasm.Fold: NFC is a function assumed to leave skeletons alone and to compose nothing across a space.
- Instalments.CompareIsTotal: localeCompare is taken as the order of characters, which it is on ISO dates and lower-case ids.
- Instalments.StatusIsTheSignOfDays: a day that does not exist, such as 31 February, is not a date here; what Date.parse does with one is left to the engine.
- BillingTotals.MyTotals: packages, payability and what else a line shows are left out.
- Dashboard.ListCounts: names, conversations, filters and the count of rows before go-live are left out.
- FamilyAccess.Service.Revoke: who may grant or revoke is left out; the trigger on the table is not claimed.
- CallKit.Bridge.ReportAnswered: a bridge already released, which only completes, is left out, as are the audio callbacks.
- The lesson, icon, registry, supply-chain and pin checkers, the React and Flutter code, deletion tokens, money formatting and impersonation: long lists of independent checks or smaller repeats of what is shown.
