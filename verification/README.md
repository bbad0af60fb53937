# DigitalCore: a verified model

DigitalCore sells licences and V2Ray services: orders, receipts, invoices, coupons, a wallet,
referral rewards, a pool of licences and a remote panel that holds a second copy of every
service. This project models the services that promise exactly-once behaviour across retries,
row locks and partial failures, and the few real algorithms around them, and proves what
they promise.

`dafny verify dfyconfig.toml` checks everything.

## How it is laid out

Tables are sequences of rows; a row's id is its position. Each imperative service is a class
whose methods update table fields in place, statement by statement, and whose `ensures` tie
the new tables to a function of the old ones. What the service promises is proved about those
functions, over every run of them. Sends, clocks, settings, panel answers, the choice a
`SKIP LOCKED` query makes and the rows a sweep finds stale are parameters, so every result
holds for all of them.

| file | content |
|---|---|
| `Common.dfy`, `Text.dfy` | options, results, order status; string operations as Python has them |
| `LicensePool.dfy` | what one licence operation does to the tables, and the safety it keeps |
| `LicenseDelivery.dfy` | deliveries interleaved by unboundedly many workers; serializability |
| `LicenseService.dfy` | the licence operations in place |
| `LicenseText.dfy`, `LicenseImport.dfy` | the licence text parser; adding and bulk import |
| `Renewal.dfy` | closed form of repeated renewal |
| `ServiceLifecycle.dfy`, `LifecycleAnswers.dfy`, `LifecycleRuns.dfy`, `LifecycleSweeps.dfy`, `LifecycleService.dfy` | renew, add traffic, sweeps; what each call answers and changes; what holds over runs; whole sweeps and passes; the operations in place |
| `Discounts.dfy`, `Shop.dfy`, `ShopAnswers.dfy`, `ShopRuns.dfy`, `ShopService.dfy` | coupons; orders, payments, invoices and coupon usage; what each call answers and changes; what holds over runs; in place |
| `Ledger.dfy`, `LedgerAnswers.dfy`, `LedgerService.dfy` | balances, the wallet ledger and referral rewards; what each call answers and changes; in place |
| `Wallet.dfy`, `WalletAnswers.dfy`, `WalletRuns.dfy`, `WalletService.dfy` | wallet charges, refunds and top-ups on that ledger, against the shop's orders; what each call answers and changes; what holds over runs of shop, wallet and referrals together; in place |
| `Jalali.dfy` | Jalali to Gregorian conversion and date windows |
| `Slug.dfy`, `Catalog.dfy` | category slugs; categories and the grouping for the bot |
| `PanelClient.dfy` | the panel client's logins, retries and fallbacks |
| `Retention.dfy` | backup retention |

## Where the code does not keep a promise

Each of these is proved with its exact condition and, where it takes several steps to get there,
with a run that does.

- A delivery or a replacement that dies after the buyer received a fresh licence and before the
  commit leaves that licence free, and the next order may receive the same credentials. A step
  keeps track if and only if it is no such crash (`LicenseDelivery.TrackedUnlessCrash`); two paid
  orders and one licence are enough for it to happen (`LicenseDelivery.OneLicenseTwoBuyers`).
- Approving a top-up commits the wallet credit before it marks the payment approved. A step keeps
  every top-up credited exactly as often as it is approved if and only if it is not a worker
  dying in between (`WalletRuns.StepSoundIff`), and so does a run (`WalletRuns.RunSoundIff`); the
  next approval gives the credit again (`WalletRuns.CrashedCreditIsRepeated`), as asking for a
  hundred once, with a bonus of ten, and ending with two hundred and twenty shows
  (`WalletRuns.TopupCreditedTwice`).
- The one-shot warnings are sent row by row and committed once at the end. A warning can be sent
  again at once if and only if the worker died before that commit
  (`LifecycleRuns.WarnedAgainIff`); a crash and one more sweep warn twice
  (`LifecycleRuns.WarnedTwice`).
- Settling an invoice from the wallet marks it paid even if the wallet call reports that there
  was nothing to charge. A step keeps every paid invoice backed by a payment if and only if it
  is no such settlement (`ShopRuns.BackedUnlessSettledForNothing`); ordering, opening the
  invoice and cancelling leads to one (`ShopRuns.SettlingForNothingHappens`).
- An open order can still get paid if and only if its payment has not expired
  (`ShopRuns.CanBePaidIff`); ordering, opening the payment and waiting strands one
  (`ShopRuns.StrandedOrderHappens`).
- A refund gives back the amount of the payment row. Charging and refunding restores all
  balances if and only if that row recorded the price at the time of the charge
  (`WalletRuns.RefundUndoesChargeIff`); a coupon used after the payment was opened makes it give
  back more than was charged (`WalletRuns.RefundMayExceedCharge`).
- The expiry marking is described as flipping active and over-quota services past their expiry;
  the code selects active ones only. It leaves nobody overdue if and only if no over-quota
  service had expired (`LifecycleSweeps.ExpiryMarkingCompleteIff`); any that has is passed over
  (`LifecycleSweeps.ExpiredOverQuotaIsPassedOver`).
- The stand-alone reservation helper keeps the pool safe if and only if the order waits for
  delivery, matches product and buyer, and holds no licence (`LicensePool.ReserveAvailableSafeIff`).
- 12/30 is accepted in every Jalali year; it is the next year's first day if and only if the
  year is common (`Jalali.ThirtiethOfEsfand`). 9999/12/31 taken to the end of its day is the one
  date that leaves the range of Python's dates (`Jalali.ParseFields`).

## Model

| member | source | states |
|---|---|---|
| LicenseDelivery.RunKeepsSafe | app/services/license_service.py:386-491 | For any number of workers, orders and licences, in any interleaving of lock, read, find, pick, send, commit, crash, administrator and dying replacement steps: no order ever holds two licences, a held licence fits its order and buyer and is sold exactly when that order is delivered, a licence's order is written once, none returns to available, a delivered order stays delivered |
| LicenseDelivery.StepKeepsInv | app/services/license_service.py:386-491 | Every single step keeps the locks exclusive and keeps true whatever each open transaction has read under them |
| LicenseDelivery.RunIsSerial | app/services/license_service.py:386-491 | Row lock, SKIP LOCKED and the single final commit make every interleaved run equivalent, in tables and in answers, to whole deliveries one after the other in commit order, each hiding no more than the next row says |
| LicenseDelivery.HiddenRowsWereLocked | app/services/license_service.py:428-436 | Whatever row a serial delivery does not see was locked by another worker when its pick was made, or was inserted after it |
| LicenseDelivery.OutOfStockIsHonest | app/services/license_service.py:428-443 | An order is told that stock ran out only if every licence of the product still free was locked by another worker at the pick, or inserted after it |
| LicenseDelivery.AtMostOneSalePerOrder | app/services/license_service.py:386-420 | Delivery is idempotent: over any run an order is reported sold at most once, and reported sales are of delivered orders |
| LicenseDelivery.DeliveredOrdersWereSold | app/services/license_service.py:386-491 | In any run every order that came to be delivered was answered with the sale of a licence to it |
| LicenseDelivery.LoneDelivery | app/services/license_service.py:386-491 | A delivery of an order nobody else is delivering goes through: left alone it answers and publishes what one whole delivery would, which sees every licence no other worker has locked |
| LicenseDelivery.TrackedUnlessCrash | app/services/license_service.py:440-605 | A step keeps every sent licence on record for its buyer if and only if it is not a crash between the send and the commit, of a delivery or of a replacement |
| LicenseDelivery.OneBuyerPerLicense | app/services/license_service.py:386-491 | In any run without such a crash, no licence is ever sent for two orders |
| LicenseDelivery.CrashAfterSendIsResold | app/services/license_service.py:440-491 | After such a crash, the next delivery that finds the licence first sends the same credentials for a second order |
| LicenseDelivery.OneLicenseTwoBuyers | app/services/license_service.py:440-491 | From a shop at rest with two paid orders and one licence, a crash after the send leads to both buyers receiving it |
| LicensePool.DeliverSafe | app/services/license_service.py:386-491 | One whole delivery keeps the pool safe and undoes nothing, on every branch |
| LicensePool.DeliveryAccepts | app/services/license_service.py:405-420 | A delivery goes through exactly for a paid licence order; refusals and repetitions change nothing |
| LicensePool.OutOfStockMeans | app/services/license_service.py:425-447 | "Out of stock" is answered exactly if the order holds no licence and none is free in sight, and changes nothing but the note of it |
| LicensePool.InReachIsHandedOver | app/services/license_service.py:422-480 | Otherwise the order gets the licence it holds or the first free one: sold, with the order delivered, if the send succeeded, else kept for the order, which stays as it was; no other row changes |
| LicensePool.OnlySalesDeliver | app/services/license_service.py:386-491 | No delivery changes the status of an order but by selling it a licence that was sent |
| LicensePool.SaleIsFinal | app/services/license_service.py:472-491 | A reported sale was sent, and its order is delivered and holds exactly that licence, sold to that buyer |
| LicensePool.RedeliveryRecovers | app/services/license_service.py:494-521 | After a failed send, re-sending ends in exactly the tables and answer of a delivery that had succeeded at once |
| LicensePool.RedeliveryMeans | app/services/license_service.py:494-521 | Re-sending needs a held licence; a sold one is only sent again, a reserved one delivered |
| LicensePool.SoldStaysPut | app/services/license_service.py:405-415 | Once sold, delivering or re-sending repeats the same licence and changes no row |
| LicensePool.ReplaceSafe | app/services/license_service.py:556-605 | Replacement keeps one licence per order and every other safety property |
| LicensePool.ReplacementMeans | app/services/license_service.py:556-605 | A replacement goes through exactly for a delivered order with a sold licence while the chosen one, or any, is to be had; then the order holds exactly that one, the old one names it as successor, and nothing else changed |
| LicensePool.ReplacementRefusals | app/services/license_service.py:561-586 | Each refusal of a replacement is given exactly for its reason |
| LicensePool.ReserveAvailableSafeIff | app/services/license_service.py:308-332 | The reservation helper is safe if and only if the order awaits delivery, fits product and user, and holds no licence |
| LicensePool.ActiveLicense | app/services/license_service.py:225-234 | The licence of an order is its newest reserved or sold row, and none only if there is none |
| LicensePool.FirstFree | app/services/license_service.py:425-440 | The pick is the oldest visible available row of the product, and none only if every such row is hidden by a lock |
| LicenseService.LicenseTables.DeliverLicenseForOrder | app/services/license_service.py:386-491 | The statements in place compute exactly the delivery above and keep the pool safe |
| LicenseService.LicenseTables.RedeliverLicense | app/services/license_service.py:494-521 | Re-sending in place: a sold licence is sent again, a stranded reserved one delivered |
| LicenseService.LicenseTables.ReplaceLicense | app/services/license_service.py:556-605 | Replacement in place, with every refusal |
| LicenseService.LicenseTables.ReserveAvailableLicense | app/services/license_service.py:308-332 | The reservation helper in place: a refusal changes nothing, and a success keeps the pool safe if and only if the caller asked for a fitting order that holds nothing |
| LicenseService.LicenseTables.MarkLicenseBroken | app/services/license_service.py:524-537 | Marking broken touches one row and keeps the pool safe |
| LicenseService.LicenseTables.BlockLicense | app/services/license_service.py:540-553 | Blocking refuses sold licences and keeps the pool safe |
| LicenseText.ParseLicenseText | app/services/license_service.py:61-112 | The parsing loops return, in order, the items and errors of the block-by-block reading of the text |
| LicenseText.ReadKeys | app/services/license_service.py:81-90 | In a key block the last value of each key counts and every other line is kept as stray |
| LicenseText.EveryBlockAnswered | app/services/license_service.py:70-112 | On any text each block yields, under its own number, exactly one item or error if it has key lines and else one per line; no other number occurs |
| LicenseText.KeyBlockMeans | app/services/license_service.py:80-101 | A key block yields one item exactly if all its lines name a key and it gives an e-mail and a password, the last value of each counting; else the stray lines, or that a field is missing, as its one error |
| LicenseText.CommaLineMeans | app/services/license_service.py:102-112 | A comma-separated line yields an item exactly if its first two parts are not blank, the third being the note; else one error |
| LicenseText.AnyCaseMatches | app/services/license_service.py:58-86 | Keys are recognized in any case and with blanks before the colon, and no line is taken for two keys |
| LicenseText.NothingDropped | app/services/license_service.py:70-112 | Items and errors together add up to the shares of all blocks |
| LicenseText.BlockRoundTrip | app/services/license_service.py:61-112 | Printing well-formed licences as EMAIL/PASSWORD/NOTE blocks and parsing gives them back, in order, with no error |
| LicenseText.CommaRoundTrip | app/services/license_service.py:102-112 | Likewise one comma-separated line per licence, as long as no line reads like a key line |
| LicenseText.CommaLinesParse | app/services/license_service.py:104-111 | Comma-separated lines of well-formed licences parse to them, one by one |
| Text.BlocksOfJoin | app/services/license_service.py:72 | Splitting at blank lines undoes joining with them |
| LicenseImport.LicenseStock.BulkImportLicenses | app/services/license_service.py:159-201 | The report accounts for every parsed item: imported, repeated in the text or already stored; e-mails stay distinct per product in any spelling, whatever lower-casing makes of it |
| LicenseImport.LicenseStock.StoreNewItems | app/services/license_service.py:165-186 | The import loop stores the first item of each e-mail not stored yet, in text order, and counts the others |
| LicenseImport.LicenseStock.AddLicense | app/services/license_service.py:135-156 | A single licence is stored trimmed, or refused for the product, a missing field or an e-mail known in any spelling |
| LicenseImport.EveryItemCounted | app/services/license_service.py:165-193 | Stored, repeated and known items add up to the parsed ones |
| LicenseImport.FirstIsStored | app/services/license_service.py:168-180 | The first item of an e-mail is stored if and only if the e-mail was not stored before |
| LicenseImport.EveryKeyIsStored | app/services/license_service.py:165-186 | After an import every parsed e-mail is in the pool |
| LicenseImport.ImportKeepsDistinct | app/services/license_service.py:128-132 | E-mails that are distinct per product once lowered, by any lower-casing, stay distinct |
| LicenseImport.SecondImportIsIdle | app/services/license_service.py:159-201 | Importing the same text again stores nothing |
| LicenseImport.PrintedLicensesArrive | app/services/license_service.py:159-201 | Licences printed in the documented format and imported for a product without any arrive unchanged and in order |
| Renewal.RenewalClosedForm | app/services/v2ray_lifecycle_service.py:80-87 | After any renewals at any times the expiry is the maximum of the start plus all bought time and, for each renewal, its moment plus the time bought from it on |
| Renewal.AdditiveIffNeverLapsed | app/services/v2ray_lifecycle_service.py:80-87 | Bought time is never lost, and is exactly additive if and only if the service never lapsed |
| LifecycleRuns.RunAccounted | app/services/v2ray_lifecycle_service.py:201-252 | Over any run with any panel answers: a limited quota is its start plus the gigabytes of the confirmed purchases, unlimited stays unlimited, the expiry is the fold of the confirmed renewals, and warnings and automatic disables come at most once plus once per re-arming event and, for warnings, per stamp lost in a crash |
| LifecycleRuns.QuotaExplained | app/services/v2ray_lifecycle_service.py:228-346 | Over any run a limited quota is its start, plus a sum over all orders in which each order the run delivered counts the gigabytes its product had in the one step that delivered it, if it adds traffic to this service, and every other order nothing, plus what administrators granted |
| LifecycleRuns.TimeExplained | app/services/v2ray_lifecycle_service.py:201-346 | Over any run an expiry is at least its start plus the days of each renewal order the run delivered, as its product had them in the one step that delivered it, plus those administrators granted; and exactly that if and only if the service never lapsed before a renewal |
| LifecycleRuns.WarnedAgainIff | app/services/v2ray_lifecycle_service.py:519-590 | After a step that warns an owner the same sweep finds the service again if and only if the worker died before the sweep's commit |
| LifecycleRuns.NoStampLost | app/services/v2ray_lifecycle_service.py:519-590 | In runs without such a crash warnings are bounded by re-arming events alone |
| LifecycleRuns.WarnedTwice | app/services/v2ray_lifecycle_service.py:519-556 | A sweep that dies before its commit and one more sweep warn an owner twice, with nothing re-armed |
| LifecycleRuns.RunAppliesOnce | app/services/v2ray_lifecycle_service.py:273-358 | However often paid action orders are retried, and whenever a worker dies, each delivered one was applied exactly once, with the action and to the service it names, and no other ever |
| LifecycleRuns.RunAppliesPlans | app/services/v2ray_lifecycle_service.py:321-332 | Each order was applied by a confirmed delivery of the run, with the days or gigabytes its product had then |
| LifecycleRuns.RunTracks | app/services/v2ray_lifecycle_service.py:162-182 | Failed attempts never stack: from agreement, after any run panel and row agree or the panel is ahead by exactly one attempt of that run, the last write that reached it, landed but unconfirmed, computed from the terms the row still has |
| LifecycleRuns.SecondAttemptReplacesFirst | app/services/v2ray_lifecycle_service.py:162-182 | Of two attempts that landed unconfirmed only the second is on the panel |
| LifecycleRuns.DeliveryAgrees | app/services/v2ray_lifecycle_service.py:326-358 | After a success panel and row agree and the client is enabled; after a failure no row changed |
| LifecycleAnswers.ActionAnswers | app/services/v2ray_lifecycle_service.py:273-332 | A paid action is handed over exactly if order, product, owner and service fit and the panel confirms; refusals and repetitions change nothing |
| LifecycleAnswers.ActionFailures | app/services/v2ray_lifecycle_service.py:300-379 | Otherwise the order waits for another try, with the true reason on record, and no row or log entry changes |
| LifecycleAnswers.HandedOverMeans | app/services/v2ray_lifecycle_service.py:320-346 | A renewal makes the expiry the later of now and the old expiry plus the product's days; traffic adds the product's gigabytes to a limited quota; status, stamps, panel and log follow, and no other service changes |
| LifecycleAnswers.GrantMeans | app/services/v2ray_lifecycle_service.py:201-252 | An administrator's grant goes to any service that is not deleted, for a positive amount, and changes it as an order would |
| LifecycleAnswers.SwitchingMeans | app/services/v2ray_service.py:526-566 | Switching a client on or off sets status and stamp once the panel confirms; an expired service stays expired |
| LifecycleAnswers.UnconfirmedChangesNothing | app/services/v2ray_service.py:526-615 | Without the panel's confirmation neither switching nor resetting changes a row |
| LifecycleAnswers.ResettingMeans | app/services/v2ray_service.py:590-615 | A traffic reset clears usage and traffic warning and lifts an over-quota state, to expired if the time is up |
| LifecycleAnswers.SyncingMeans | app/services/v2ray_service.py:481-523 | A usage reading moves only running services, to expired, over quota or active as time and reading say |
| LifecycleAnswers.SweepsLookFor | app/services/v2ray_lifecycle_service.py:382-584 | Which rows each sweep is after, in terms of time left, quota used and what was done before |
| LifecycleAnswers.SweptRow | app/services/v2ray_lifecycle_service.py:382-590 | What each sweep makes of a row it found, of its client and of the log |
| LifecycleRuns.ChangeIsSettled | app/services/v2ray_lifecycle_service.py:124-144 | The status computed after a change is one that neither marking sweep nor a usage sync at that moment would move; active means in force |
| LifecycleService.LifecycleTables.Push | app/services/v2ray_lifecycle_service.py:162-182 | Panel first; row and log follow only a confirmed write, after which panel and row agree |
| LifecycleService.LifecycleTables.GrantChange | app/services/v2ray_lifecycle_service.py:201-252 | Administrator renewals and traffic grants, with their refusals |
| LifecycleService.LifecycleTables.ApplyServiceActionForOrder | app/services/v2ray_lifecycle_service.py:273-358 | Delivery of a paid renew or add-traffic order with every refusal; handed over means delivered with panel and row equal, anything else leaves rows and log alone |
| LifecycleService.LifecycleTables.Fail | app/services/v2ray_lifecycle_service.py:361-379 | A failed action leaves its order retryable with the reason on record |
| LifecycleService.LifecycleTables.SweepBatch | app/services/v2ray_lifecycle_service.py:424-460 | A sweep, complete or stopped part way, is a run of single row steps over the first rows of a batch the limited query may return |
| LifecycleService.LifecycleTables.SweepSome | app/services/v2ray_lifecycle_service.py:424-590 | A disabling or warning sweep handles every row it is after unless it fails or its limit is too small, and touches no other; one that fails after some rows keeps what those committed - disables one by one, stamps of warnings together or not at all |
| LifecycleService.LifecycleTables.MarkServices | app/services/v2ray_lifecycle_service.py:400-418 | A marking sweep turns every row it looks for into the marked one, leaves none, touches nothing else, and reports how many |
| LifecycleSweeps.ExpiryMarkingCompleteIff | app/services/v2ray_service.py:740-755 | After the expiry marking no active or over-quota service is past its expiry if and only if no over-quota one was before |
| LifecycleSweeps.ExpiredOverQuotaIsPassedOver | app/services/v2ray_service.py:740-755 | An over-quota service past its expiry is left as it is |
| LifecycleSweeps.WorkersKeepTerms | app/services/v2ray_lifecycle_service.py:597-620 | Whatever sweeps and usage syncs do, expiry and quota stay as they were sold |
| LifecycleService.LifecycleTables.RefreshDueServices | app/services/v2ray_lifecycle_service.py:486-513 | Refreshing is one usage sync per due service, in order, up to where it may fail, skipping what the panel does not answer |
| LifecycleService.LifecycleTables.LifecycleTick | app/services/v2ray_lifecycle_service.py:597-620 | A worker pass, whichever of its steps fail and after however many rows: it keeps every expiry and quota; unless the marking failed no overdue or over-quota service is left active; it switches off a client only if its service has run out and the settings say so, and warns only within the configured window or share; and each of these four sweeps that does not fail and finds no more rows than its limit reaches every such service |
| LifecycleSweeps.FourHandled | app/services/v2ray_lifecycle_service.py:424-590 | The two disabling and two warning sweeps of a pass do not get in each other's way: each finds and handles what was there for it at the start |
| LifecycleSweeps.SweepRunRows | app/services/v2ray_lifecycle_service.py:424-460 | A sweep clears the rows of its batch that the panel accepted and touches no other row |
| Discounts.PricierStaysPricier | app/services/coupon_service.py:66-78 | A dearer order never ends up cheaper after the same coupon |
| Discounts.DiscountIsLargest | app/services/coupon_service.py:66-78 | The discount is the largest amount within the price, the percentage and its cap, or the fixed value |
| Discounts.DiscountBounds | app/services/coupon_service.py:66-78 | A discount lies between nothing and the price, and respects a percentage's cap |
| ShopRuns.RunSound | app/services/payment_service.py:257-431 | Over every run: order and payment status stay coupled as documented, final equals amount minus discount with no discount without a coupon, every coupon's count equals its usage rows, an order has at most one, with its own discount, and nothing paid, settled or expired is taken back |
| ShopRuns.UsageIsForever | app/services/coupon_service.py:242-270 | A usage row stays, and its order keeps that coupon and discount forever |
| ShopRuns.RunKeepsOneOpenInvoice | app/services/payment_core_service.py:99-117 | However often a checkout is opened again, an order never has two unpaid invoices |
| ShopRuns.DeleteUndoesSubmit | app/services/payment_service.py:308-339 | Deleting a receipt is the exact inverse of submitting it |
| ShopRuns.ApprovalIsIdempotent | app/services/payment_core_service.py:458-509 | A second approval or coupon consumption changes nothing |
| ShopRuns.CanBePaidIff | app/services/payment_core_service.py:578-601 | Some course of events ends with the order paid if and only if it is paid already, or it is open and its payment has not expired |
| ShopRuns.StrandedOrderHappens | app/services/payment_core_service.py:578-601 | From an empty shop: ordering, opening the payment and letting it grow old leaves an open order nobody can pay |
| ShopRuns.ExpiredPaymentStrandsOrder | app/services/payment_core_service.py:578-601 | Once its payment has expired an order can only stay unpaid or be cancelled |
| ShopRuns.BackedUnlessSettledForNothing | app/services/payment_core_service.py:369-402 | A step keeps every paid invoice backed by an approved payment if and only if it does not settle an open invoice whose order can no longer be charged |
| ShopRuns.SettlingForNothingHappens | app/services/payment_core_service.py:369-402 | From an empty shop: ordering, opening the invoice and cancelling leads to a wallet settlement that leaves a paid invoice without a payment |
| ShopRuns.RecordUsageSound | app/services/coupon_service.py:242-270 | Recording a usage keeps counts and rows equal, and one row per order |
| ShopAnswers.OrderingMeans | app/services/order_service.py:52-177 | A request becomes one unpaid order at the full price exactly if it is sellable and a number is free; else nothing changes |
| ShopAnswers.OrderRefusalIsTrue | app/services/order_service.py:72-141 | Each refusal of an order names something that is really in the way |
| ShopAnswers.InvoicingMeans | app/services/payment_core_service.py:99-145 | After opening an invoice the order's latest one is unpaid and asks for what the order costs; no other changed |
| ShopAnswers.StartingMeans | app/services/payment_core_service.py:318-366 | A payment is tied to an unpaid invoice, for its amount, exactly while the order's payment is none or pending |
| ShopAnswers.SubmittingMeans | app/services/payment_service.py:257-305 | A receipt is taken exactly for the buyer's own open order with a pending payment and a valid file, and puts both up for review |
| ShopAnswers.DiscardingMeans | app/services/payment_service.py:308-339 | A receipt can be discarded exactly in review, which reopens order and payment |
| ShopAnswers.ApprovingMeans | app/services/payment_service.py:354-401 | An approval goes through exactly in review; then order and payment are approved, and a coupon not yet consumed is, with usage row and count, unless recording fails |
| ShopAnswers.RejectingMeans | app/services/payment_service.py:404-431 | A rejection goes through exactly in review and with a reason; then order and payment are rejected and nothing else changed |
| ShopAnswers.ConsumingMeans | app/services/coupon_service.py:242-270 | A coupon is consumed exactly if it exists and was not consumed for this order, with one usage row of the order's discount and one count |
| ShopAnswers.ApprovingByPaymentMeans | app/services/payment_core_service.py:458-483 | Approving by payment approves the receipt and settles the unpaid invoice the payment names, and no other |
| ShopAnswers.RejectingByPaymentMeans | app/services/payment_core_service.py:512-534 | Rejecting by payment rejects the receipt; a rejected one stays so and an approved one cannot be rejected |
| ShopAnswers.CancellingMeans | app/services/order_service.py:254-272 | An order is cancelled exactly if unpaid, open or in review, and the caller's own or an administrator's to cancel |
| ShopAnswers.WalletPayingMeans | app/services/wallet_service.py:361-435 | Whether a wallet payment approves, repeats or is refused, and exactly what it writes |
| ShopAnswers.WalletSettlingMeans | app/services/payment_core_service.py:369-402 | Settling an open invoice pays its order and marks it paid, whether or not anything was charged |
| ShopAnswers.ValidatingMeans | app/services/coupon_service.py:138-185 | A coupon is accepted exactly if enabled, active, within its dates, limits, minimum, product, type and action; each refusal is true |
| ShopAnswers.UsesAreCounted | app/services/coupon_service.py:128-132 | A user's uses of a coupon are the usage rows that say so |
| ShopAnswers.ApplyingMeans | app/services/coupon_service.py:192-215 | A coupon is applied exactly to the buyer's own open order it fits, and takes its discount off the price |
| ShopAnswers.DroppingMeans | app/services/coupon_service.py:218-239 | Dropping the coupon of the buyer's own open order restores the full price |
| ShopAnswers.SavingMeans | app/services/coupon_service.py:276-366 | Coupons are saved only with a sane value, and their use count is never overwritten |
| ShopAnswers.ExpiringMeans | app/services/payment_core_service.py:556-601 | Of the stale rows exactly the pending payments and unpaid invoices expire |
| ShopAnswers.StatusMoves | app/services/payment_service.py:257-431 | An order changes its status only in the call that is for it, from where that call may start |
| ShopAnswers.PaidWasApproved | app/services/payment_service.py:354-401 | Over every run, an order is paid only if its receipt in review was approved, or the wallet paid its price |
| ShopService.ShopTables.CreateOrder | app/services/order_service.py:52-177 | Order creation in place with every refusal and the retry on a taken order number; an order is placed only for a sellable request, at the product price |
| ShopService.ShopTables.CreateProductInvoice | app/services/payment_core_service.py:99-145 | The open invoice of an order is reused, refreshed to the current price, else a new one added; keeps the shop sound and undoes nothing final |
| ShopService.ShopTables.CreatePayment | app/services/payment_core_service.py:318-366 | Starting a payment in place, with its refusals; keeps the shop sound and undoes nothing final |
| ShopService.ShopTables.SubmitReceipt | app/services/payment_service.py:257-305 | A receipt moves the order and its payment together; keeps the shop sound and undoes nothing final |
| ShopService.ShopTables.DeleteReceipt | app/services/payment_service.py:308-339 | Deleting a receipt moves both back; keeps the shop sound and undoes nothing final |
| ShopService.ShopTables.ApproveReceipt | app/services/payment_service.py:354-401 | Approval of a reviewable receipt moves both and consumes the coupon; keeps the shop sound and undoes nothing final |
| ShopService.ShopTables.RejectReceipt | app/services/payment_service.py:404-431 | Rejection needs a reason and moves both; keeps the shop sound and undoes nothing final |
| ShopService.ShopTables.ApprovePayment | app/services/payment_core_service.py:458-483 | Approval by payment of an order also settles its open invoice, is a no-op when repeated, and keeps the shop sound |
| ShopService.ShopTables.RejectPayment | app/services/payment_core_service.py:512-534 | Rejection by payment of an order, with its refusals; keeps the shop sound |
| ShopService.ShopTables.CancelOrder | app/services/order_service.py:254-272 | Cancelling is only for unpaid orders of the owner; keeps the shop sound and undoes nothing final |
| ShopService.ShopTables.ApplyCouponToOrder | app/services/coupon_service.py:192-215 | A valid coupon sets coupon, discount and final price together; keeps the shop sound and undoes nothing final |
| ShopService.ShopTables.RemoveCouponFromOrder | app/services/coupon_service.py:218-239 | Removing a coupon restores the full price; keeps the shop sound and undoes nothing final |
| ShopService.ShopTables.RecordUsage | app/services/coupon_service.py:242-270 | A usage is recorded and counted once per order; keeps the shop sound and undoes nothing final |
| ShopService.ShopTables.ExpireOldPendingPayments | app/services/payment_core_service.py:578-601 | The loop expires exactly the stale pending payments, reports how many, and keeps the shop sound |
| ShopService.ShopTables.ExpireOldUnpaidInvoices | app/services/payment_core_service.py:556-575 | The loop expires exactly the stale unpaid invoices, reports how many, and keeps the shop sound |
| Wallet.RunKeepsBase | app/services/wallet_service.py:361-494 | Over every run of shop, wallet and referrals, crashes included: an order is charged at most once, only if it is paid, to its buyer and by its final price; it is refunded at most once, exactly if marked so and by the amount of its payment; each reward is credited once exactly if paid |
| WalletRuns.StepSoundIff | app/services/payment_core_service.py:485-509 | A step keeps every top-up credited, with its bonus, exactly as often as it is approved if and only if it is not a worker dying between the credit and the approval of a top-up that could be approved |
| WalletRuns.RunSoundIff | app/services/payment_core_service.py:485-509 | A run ends with every top-up credited once if approved and never otherwise, if and only if no worker died there |
| WalletRuns.RunCounts | app/services/payment_core_service.py:485-509 | Over every run a top-up was credited once more than it is approved for each such crash |
| WalletRuns.CrashedCreditIsRepeated | app/services/payment_core_service.py:485-509 | After such a crash the next approval succeeds and credits amount and bonus again |
| WalletRuns.TopupCreditedTwice | app/services/payment_core_service.py:485-509 | From nothing: joining, asking for a hundred and ten, submitting, an approval that dies and one that does not leave two hundred and twenty |
| WalletRuns.RunConserves | app/services/wallet_service.py:114-136 | Over every run of shop, wallet and referrals each balance is its opening plus the sum of its ledger rows, and the rows chain without a gap |
| WalletRuns.BalanceExplained | app/services/wallet_service.py:114-136 | Over every such run, crashes included, a balance is its opening, less the price of each order charged to it, plus the payment of each refunded order, the credit of each top-up as often as approved or lost to a crash, the rewards paid to its owner, and administrators' adjustments |
| WalletRuns.RunStaysNonNegative | app/services/wallet_service.py:114-136 | Nothing overdraws: without the explicit permission no charge, refund, top-up, reward or adjustment leaves a balance below zero |
| WalletRuns.RefundUndoesChargeIff | app/services/wallet_service.py:451-494 | Charging and refunding an order restores all balances if and only if its payment row, when it had one, recorded the price it had when it was charged |
| WalletRuns.RefundMayExceedCharge | app/services/wallet_service.py:361-494 | From nothing: a payment opened for ten, a coupon of four, a wallet charge of six and a refund of ten |
| WalletAnswers.PayingMeans | app/services/wallet_service.py:361-435 | A wallet payment takes the price of the buyer's own order that is still to pay, and approves it, exactly if the wallet holds that much; else nothing changes |
| WalletAnswers.SettlingMeans | app/services/payment_core_service.py:369-402 | Settling an invoice charges exactly if its order can be charged |
| WalletAnswers.RefundingMeans | app/services/wallet_service.py:451-494 | A paid order is refunded exactly once, with a reason, to its buyer, by what its payment says |
| WalletAnswers.ToppingUpMeans | app/services/payment_core_service.py:463-509 | A top-up in review that is worth something is credited with its bonus and marked; any other approval changes nothing |
| WalletAnswers.TurningDownMeans | app/services/payment_core_service.py:512-550 | A top-up is rejected exactly in review and with a reason |
| WalletService.WalletTables.RecordTx | app/services/wallet_service.py:114-136 | A balance and its ledger row change together, or neither if the balance would end below zero |
| WalletService.WalletTables.PayOrderWithWallet | app/services/wallet_service.py:361-435 | The wallet payment in place, with every refusal; a second call charges nothing; everything booked stays explained |
| WalletService.WalletTables.RefundOrderToWallet | app/services/wallet_service.py:451-494 | The refund in place, with every refusal; everything booked stays explained |
| WalletService.WalletTables.ApproveTopupPayment | app/services/payment_core_service.py:485-509 | The approval in place, with its two commits: a worker that dies between them leaves the credit alone, and books and approvals agree afterwards if and only if that did not happen |
| WalletService.WalletTables.RejectTopupPayment | app/services/payment_core_service.py:517-550 | Rejecting a top-up in place, with its refusals, keeps everything booked explained |
| Ledger.RunConserves | app/services/user_service.py:305-364 | Over every run each balance is its opening plus the sum of its ledger rows, and each row starts where the rows before it ended |
| Ledger.ConsecutiveRowsMeet | app/services/user_service.py:340-364 | Consecutive rows of one user meet: balance after equals the next balance before |
| Ledger.RunStaysNonNegative | app/services/user_service.py:325-339 | Without the explicit permission no balance falls below zero |
| Ledger.RunRewards | app/services/referral_service.py:178-327 | Each reward is positive, for a delivered order of the referred user, credited exactly once if paid and never otherwise, to its referrer and in full; no order earns two |
| Ledger.BalanceExplained | app/services/referral_service.py:192-209 | Over every run each balance is its opening, plus what else was booked for it, plus exactly the amounts of the rewards marked paid to its owner |
| Ledger.RunBooksAgree | app/services/referral_service.py:192-209 | What the ledger credited for referrals always equals what the reward table says was paid, user by user |
| Ledger.RewardIsItsShare | app/services/referral_service.py:186-189 | A percentage reward is the whole part of its share and never more than the price |
| LedgerAnswers.MintingMeans | app/services/referral_service.py:212-275 | A reward is minted exactly for a qualifying order - settings, delivery, referrer, first order, minimum, no earlier reward for it - to the buyer's referrer; with approval required it waits and no money moves, else it is paid at once if it can be |
| LedgerAnswers.ApprovingMeans | app/services/referral_service.py:278-298 | Approval pays exactly a pending or approved reward whose referrer can be credited, once, in full |
| LedgerAnswers.RejectingMeans | app/services/referral_service.py:308-327 | Rejection needs a reason and an unpaid reward and moves no money |
| LedgerAnswers.RegisteringMeans | app/services/referral_service.py:131-160 | A referrer is attached exactly to a user without one, by a valid code that is not the user's own |
| LedgerAnswers.AdjustingMeans | app/services/user_service.py:305-364 | An adjustment moves one balance by its amount, with its row, exactly if not zero, the user exists, and it stays at zero or may go below |
| LedgerAnswers.RewardAmountMeans | app/services/referral_service.py:186-189 | A percentage reward is rounded down; no reward is negative |
| LedgerAnswers.NoPayWithoutApproval | app/services/referral_service.py:265-274 | While approval is required, over every run no reward is paid that an administrator did not approve |
| LedgerAnswers.RewardedAtOnce | app/services/referral_service.py:272-275 | While it is not, a qualifying order credits its referrer, unless in debt, at once |
| Ledger.RunOnePerBuyer | app/services/referral_service.py:178-183 | While only first orders are rewarded a buyer earns at most one reward |
| Ledger.VerdictsAreFinal | app/services/referral_service.py:278-327 | A paid or rejected reward never changes, and a registered referrer is never replaced |
| LedgerService.BankTables.AdjustWalletBalance | app/services/user_service.py:305-364 | Balance and ledger row are written together, or neither; keeps reward table and ledger in agreement |
| LedgerService.BankTables.RegisterReferral | app/services/referral_service.py:131-160 | A referrer is registered once, never oneself; keeps reward table and ledger in agreement |
| LedgerService.BankTables.PayLocked | app/services/referral_service.py:192-209 | Paying credits the referrer and marks the reward in one step; keeps reward table and ledger in agreement |
| LedgerService.BankTables.CreateRewardForOrder | app/services/referral_service.py:212-275 | A delivered order of a referred user earns a reward under the settings, paid at once unless approval is required; keeps reward table and ledger in agreement |
| LedgerService.BankTables.ApproveReward | app/services/referral_service.py:278-298 | Approval pays a pending reward; keeps reward table and ledger in agreement |
| LedgerService.BankTables.RejectReward | app/services/referral_service.py:308-327 | Rejection needs a reason and an unpaid reward; keeps reward table and ledger in agreement |
| Jalali.JalaliToGregorian | app/services/bot_stats_service.py:98-130 | For any Jalali date the result is a valid Gregorian date whose day number is the Jalali day number plus one constant |
| Jalali.YearAndDay | app/services/bot_stats_service.py:108-121 | Taking eras, centuries, olympiads and years off a day count names the Gregorian year and the day within it |
| Jalali.MonthAndDay | app/services/bot_stats_service.py:122-130 | The month loop ends within the year, at the right month and day |
| Jalali.ConversionFollowsDays | app/services/bot_stats_service.py:98-130 | Converting commutes with going to the next day in both calendars' own rules |
| Jalali.ConversionIsInjective | app/services/bot_stats_service.py:98-130 | Different real Jalali dates give different Gregorian dates, in the same order |
| Jalali.Anchor | app/services/bot_stats_service.py:98-130 | The calendars are anchored: 1 Farvardin 1404 is 21 March 2025 |
| Jalali.ThirtiethOfEsfand | app/services/bot_stats_service.py:148-156 | The accepted 12/30 coincides with the next 1/1 if and only if the year is common |
| Jalali.ParseFields | app/services/bot_stats_service.py:133-166 | Exactly which dates are refused, which day the others name, and the one input that overflows |
| Jalali.WindowCoversDays | app/services/bot_stats_service.py:158-166 | The window between the midnights parsed from a Jalali start date and an end-of-day date holds exactly the days between them, both included |
| Jalali.WindowCoversGregorianDays | app/services/bot_stats_service.py:150-166 | Likewise for dates written in Gregorian, but for the one day Python cannot add to |
| Slug.SlugifyGivesSlug | app/services/product_category_service.py:51-56 | Any title becomes a non-empty lower-case slug of word characters without double or edge hyphens |
| Slug.SlugsAreFixed | app/services/product_category_service.py:51-56 | Slugs are exactly the texts slugify leaves alone, so it is idempotent |
| Slug.SlugIsItsWords | app/services/product_category_service.py:51-56 | A slug is exactly the words of the lower-cased title - split at blanks, underscores and hyphens, other characters left out - joined by single hyphens, or the fallback if there is none |
| Slug.AsciiIsSane | app/services/product_category_service.py:51-56 | The ASCII character table meets the conditions asked of a table |
| Slug.CandidatesDiffer | app/services/product_category_service.py:70-72 | base, base-2, base-3 and so on are pairwise different |
| Slug.ProbesBounded | app/services/product_category_service.py:63-72 | If the first n candidates are taken, at least n slugs are |
| Slug.UniqueSlug | app/services/product_category_service.py:59-72 | The search ends within one probe more than there are slugs, at the first free candidate |
| Catalog.CategoryTable.Create | app/services/product_category_service.py:98-131 | A new category gets the first free slug of its title; slugs stay distinct |
| Catalog.CategoryTable.Rename | app/services/product_category_service.py:134-160 | A changed title gets a new slug, its own old one not counted as taken; an unchanged one keeps it |
| Catalog.GroupedForBot | app/services/product_category_service.py:245-273 | The dictionary and list loops compute the non-empty category groups in order, then the others |
| Catalog.ProductsForCategory | app/services/product_category_service.py:276-287 | The search through the groups agrees with filtering the browsable products directly; inactive categories are empty |
| Catalog.GroupingIsPermutation | app/services/product_category_service.py:245-273 | The groups together show every browsable product exactly once |
| Catalog.ShownIffOnSale | app/services/product_category_service.py:231-273 | The groups show a product exactly if it is active, not hidden and not bought for a service |
| Catalog.GroupsSound | app/services/product_category_service.py:263-273 | Every group is non-empty, all and only its members in display order, none comes twice, others come last |
| PanelClient.SendIsBounded | app/services/sanaei_api_client.py:167-187 | One send makes at most max_retries attempts and waits at most 2^(max_retries-1) - 1 backoff units |
| PanelClient.SendMeters | app/services/sanaei_api_client.py:167-187 | The waits between the attempts are exactly the doubling backoff, and a failure used all attempts |
| PanelClient.RequestBounds | app/services/sanaei_api_client.py:189-232 | Against any panel a request ends after at most two logins, none with a token and one on an open session, and at most two rounds of sends, all to its own path |
| PanelClient.AnswerIsLastReply | app/services/sanaei_api_client.py:202-232 | The last reply on the wire alone decides the answer, and after a real answer the session is open |
| PanelClient.SendingMeans | app/services/sanaei_api_client.py:167-187 | A send takes the first reply that got through and gives up exactly when none of its tries did |
| PanelClient.LoginMeans | app/services/sanaei_api_client.py:136-157 | A login succeeds exactly on a 200 with a JSON success; what else it answers, and what it leaves of the session |
| PanelClient.VerdictMeans | app/services/sanaei_api_client.py:202-232 | Which reply means success, refused, unknown path or failure |
| PanelClient.RequestMeans | app/services/sanaei_api_client.py:189-232 | A lost cookie session, and only that, makes a request log in and send once more, and then the second answer counts |
| PanelClient.FallbackMeans | app/services/sanaei_api_client.py:286-348 | A 404 from the newer endpoint, and nothing else, sends the call on to the older one, whose answer counts |
| PanelClient.LegacyOnlyAfter404 | app/services/sanaei_api_client.py:286-348 | The older endpoint is only ever reached after the newer one answered 404 |
| PanelClient.FallbackBounds | app/services/sanaei_api_client.py:286-348 | With its fallback a call takes at most three logins, four rounds of sends and four full backoffs; with a token no login and two of each |
| PanelClient.SanaeiApiClient.Login | app/services/sanaei_api_client.py:136-157 | Login in place: only a successful JSON answer opens the session |
| PanelClient.SanaeiApiClient.EnsureAuth | app/services/sanaei_api_client.py:159-164 | A token or an open session needs no login |
| PanelClient.SanaeiApiClient.Send | app/services/sanaei_api_client.py:167-187 | The retry loop in place |
| PanelClient.SanaeiApiClient.Request | app/services/sanaei_api_client.py:189-232 | The self-recursive request in place, re-login included |
| PanelClient.SanaeiApiClient.ListInbounds | app/services/sanaei_api_client.py:286-299 | Listing with its fallback |
| PanelClient.SanaeiApiClient.AddClient | app/services/sanaei_api_client.py:312-323 | Adding with its fallback |
| PanelClient.SanaeiApiClient.UpdateClient | app/services/sanaei_api_client.py:325-337 | Updating with its fallback, and how the older endpoint names the client |
| PanelClient.SanaeiApiClient.DeleteClient | app/services/sanaei_api_client.py:339-348 | Deleting with its fallback |
| Retention.BackupJobs.CleanupOldBackups | app/services/backup_service.py:441-471 | The loop removes exactly the tail of the newest-first list beyond the kept prefix |
| Retention.KeptIsPrefix | app/services/backup_service.py:459-467 | A job is kept if and only if it is the newest, within keep_last, or younger than the retention days, to the microsecond; the kept ones are a prefix |
| Retention.LatestSurvives | app/services/backup_service.py:441-446 | The newest completed backup is never removed |
| Retention.SecondCleanupRemovesNothing | app/services/backup_service.py:441-471 | A second cleanup at the same time with the same settings removes nothing |
| Retention.OrderIsUnique | app/services/backup_service.py:452-455 | The newest-first order of the completed jobs is unique |
| Retention.OrderExists | app/services/backup_service.py:452-455 | Whatever jobs there are, the completed ones can be put newest first |

## Left out

- Database: SQLAlchemy, Postgres and migrations; a lock is an owner, a commit publishes a transaction's writes, and a read under a lock sees the committed row.
- Unlocked races: replacing, blocking or breaking a licence is one step, enabled only while no delivery holds that licence or its order; approvals and rejections of one order, and different orders for one V2Ray service, do not overlap.
- Clock: all reads of the clock within one call give one moment; a renewal reads it before and after the panel write.
- Telegram, HTTP, files, audit entries and notifications: a send is a boolean, the panel a sequence of replies; messages and keyboards do not appear.
- One payment per order: the shop model gives each order at most one payment row, as order creation does.
- Wallet: settling an invoice from the wallet is modelled on values, not in place; whether a charge succeeds is decided by the balances here, while in the shop model alone it is a parameter. The older top-up requests of the wallet service, which credit and approve in one commit, do not appear.
- ShopService.ShopTables.ApprovePayment: covers payments of orders; a top-up payment is `WalletService.WalletTables.ApproveTopupPayment`, whose invoice is not modelled.
- ShopService.ShopTables.RejectPayment: covers payments of orders; a top-up payment is `WalletService.WalletTables.RejectTopupPayment`.
- Gateway bonus arithmetic; how order and invoice numbers are drawn, tracking codes and expiry stamps of invoices; which rows are stale is a parameter.
- `used_count <= usage_limit`: the code does not recheck the limit when a usage is recorded, so it is not claimed.
- Provisioning, deleting and setting up V2Ray services; services exist from the start and a deleted one refuses changes.
- Crashes of a worker: modelled between two commits of one call (a top-up's credit and its approval, an order's approval and its coupon usage or invoice, the rows of a sweep) and between an outside effect and its commit (licences sent, panel writes, warnings); a call with one commit and no such effect leaves nothing behind. A message sent after the last commit may be lost, and an outside write that did not land is repeated.
- Usage refresh: which services are due, and when the next refresh is, are parameters; only the used bytes and the status follow.
- Panel verification: a write may fail before or after it took effect, and the model does not say why.
- Order of rows within a limited sweep: any batch the query may return is covered.
- Referral codes, statistics and notifications; an automatic payment that fails leaves its reward pending, as in the code.
- Date texts: digits and separators are already read; `ParseFields` starts from the three numbers.
- Unicode: key names of licence texts are matched in ASCII letters; e-mails take any lower-casing as a parameter, slugs any character table except context-dependent lower case (final sigma).
- Product CRUD, activation of categories, category descriptions and counts; display order is the order of the given sequences.
- Panel payloads: an inbound list, a client or a server status is an opaque value; link building and payload coercion do not appear.
- Backup creation, restore and deletion of files; only job rows are modelled.
- Reports, exports, settings, tickets, tutorials, diagnostics and permissions: queries or single-branch checks.
