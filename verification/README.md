# Ardenne Padel: verified models of the money, device and scheduling cores

This project models four cores of the club's booking platform and proves what their code and documentation promise.
`dafny verify dfyconfig.toml` checks everything.

**Money.** `WalletLedger` is the append-only wallet: rows, holds and every operation as a function on them. `WalletProofs` proves
what all runs keep (no origin overdrawn, reservations always covered, holds conserved, refunds within debits), `WalletEffects` and
`BookingCharges` what each operation does to each balance and to what a booking has been charged, and `WalletServices` ties the
service object and its two allocation loops to those functions. `BarPayments` and `BarEffects` put bar payments, reversals and
sales on top. `SplitCalculator`, `SplitProtocol`, `SplitSettlement`, `SplitMoney`, `SplitServices` and `SplitCheckouts` cover
SPLIT bookings: the shares, any number of payers racing at the grain of one repository call, the shrinking guarantee and its hold,
settlement at any moment, where every cent comes from, and the checkout that creates them. `CheckoutProtocol`, `CheckoutProofs`,
`CheckoutTheorems`, `CheckoutMoves`, `CheckoutRaces` and `CheckoutServices` cover the FULL checkout: any number of requests and
webhooks interleaved, with the provider and Legacy answering as they like.

**Devices.** `DeviceCommands`, `CommandBound` and `CommandServices` model command delivery to the Raspberry over a network that
loses, delays and repeats; `DeviceEvents` its event outbox and the server's deduplication; `DeviceSnapshot` and
`SnapshotServices` the versioned snapshot, its cache, the code check and the lights.

**Scheduling and algorithms.** `LightIntervals`, `SlotCalculator` and `AcademyScheduling` are the merge, the free-slot loop and the
lesson search with exact characterisations of their results; `Reconciliation` is the bank matching; `Csv` the member export,
proved inverse to a reader of section 2 of RFC 4180 that ends records only at CRLF.

Where a service changes things step by step there is a class whose methods are proved against functions or protocol steps on
values, and the theorems over runs and interleavings are about those functions and steps.

## Reading the protocols

- A conditional `updateMany` (`transitionStatus`, `claimForPayment`, `transitionHold`, `releaseAmount`, `reduceHoldAmount`) and each
  repository read is a step of its own, in the catch block of the FULL checkout too; a conditional update and the audit row it
  writes are one step. Code without a conditional update is one atomic step. Wallet operations are atomic, except that
  `releaseHoldPartially` is split at its conditional updates inside the SPLIT protocol.
- A run of the FULL checkout is any interleaving (`CheckoutTheorems.IsRun`). Some theorems hold for every run: the wallet stays
  sound, a request that only has captures left always confirms, and PAYMENT_PENDING always has somebody to move it on. The promises
  about the booking's money need *safe* claims: nobody claims the booking while another request is about to un-claim it once more,
  and nobody with a card while another one is about to give a hold back. `CheckoutRaces.SafeExactly` shows that this is exactly the
  condition, claim by claim, for every price above zero. A claim is *orderly* when nobody is leaving at all, which is safe;
  `CheckoutTheorems.OneAtATimeExactly` shows that this is exactly when one request is in checkout at a time.
- A run of the SPLIT protocol (`SplitProtocol.IsRun`) is any interleaving of *fair* steps: a settlement is refused by the card, or
  happens while nobody has a claim and nothing that will be captured is still owed to the guarantee or its hold; and no payer's
  decrement meets a FAILED guarantee. `SplitSettlement.FairIsExact` and `SplitSettlement.SoundExactlyWhenFair` show that this is
  exactly what the invariant needs. Other wallet traffic leaves the guarantee's hold alone.
- Cents are integers, and callers pass non-negative amounts (`NonNegative`). Ids are positions in their lists, and an id that does
  not exist is answered as the code answers it. Each customer has one wallet, which carries the customer's number.
- The card provider and Legacy are arbitrary answers. `createPayment` uses manual capture, so it never answers "succeeded"; each of
  its answers is a fresh payment row. The code passes one idempotency key per booking, and `providerPaymentId` is unique, so the
  model allows more than the code here; the runs in `CheckoutRaces` that capture a wrong amount or keep money have one card payment
  at most. `voidAuthorization` does not throw; `payment_failed` only arrives for intents that were never authorised; the database
  does not fail. The court of a booking exists, and with Legacy writing switched off the answer is "created".
- A share is charged or debited, refused, or not at all; charges answered "requires_action" or "canceled" are excluded.
- In the device protocols a command's run and its mark are one step, the device clock advances between two marks, and event ids are
  fresh. Snapshot revisions are a function of the content; where a theorem needs it, no two contents of the run collide
  (`DeviceSnapshot.NoCollision`). A command counts as live while the server would still deliver it or the device has it in its
  current batch.

## Where the code falls short of a promise

- The FULL checkout's exit without a payment method un-claims the booking and its catch block un-claims it again, and the catch
  block reopens the booking before it releases the hold. A request that claims in between is disorderly and means two requests in
  checkout at once (`CheckoutRaces.HalfExitLetsTwoIn`), possibly two active holds (`CheckoutRaces.TwoHoldsAreReachable`).
- Such a claim, unless it is safe, always lets the wrong amount be captured for a CONFIRMED booking
  (`CheckoutRaces.UnsafeClaimCapturesWrongly`): twice the price, or a card for the whole price and a hold on top. It can also be too
  little, when a webhook picks the hold that is about to be released (`CheckoutRaces.ConfirmedCanBeUnderpaid`).
- The un-claim of that exit and the failing of a booking are unconditional writes. They can hit a booking that another request has
  paid in full and CONFIRMED: it is then CHECKOUT_PENDING, open to a second checkout (`CheckoutRaces.ConfirmedCanBeReopened`), or
  FAILED (`CheckoutRaces.ConfirmedCanBeFailed`), with the money kept.
- Settling a SPLIT booking takes the unpaid shares and, from a wallet, whatever is paid but not yet taken off the guarantee or its
  hold (`SplitSettlement.SettlementTakes`); it is exact if and only if nothing is owed or nothing remains
  (`SplitSettlement.SettlementIsExactWhen`). Settling between a payer's charge and its mark charges payer and organiser
  (`SplitSettlement.SettlingInFlightChargesTwice`); settling between a refusal and its rollback leaves the share open although the
  organiser paid it (`SplitSettlement.SettlingBeforeRollbackReopens`). A payer that only has its status write left is harmless, and
  no settlement makes a share be collected twice from payers (`SplitSettlement.NeverCollectedTwice`).
- The status of a guarantee is whatever the last payer wrote (`SplitSettlement.StatusIsLastWrite`). With nothing remaining it is
  RELEASED exactly when that write had reread zero (`SplitSettlement.StatusIsRightWhen`), and from every booking of two unpaid
  shares on a card guarantee some run leaves PARTIALLY_RELEASED (`SplitSettlement.ReleasedCanBeOverwritten`).
- A command whose failure acknowledgement was lost is shown as SUCCESS when it is delivered again
  (`DeviceCommands.FailedRunShownAsSuccess`): a command without a successful run is shown as SUCCESS if and only if a repeated
  acknowledgement finished it (`DeviceCommands.SuccessIsFalseExactly`).
- The change of a bar payment is counted from the due before it, so on an account that is already overpaid it exceeds the payment
  itself, and exactly there (`BarEffects.AcceptedAdds`).
- Two grants with the same scope and code leave one row in the cache, so a valid one can be hidden
  (`DeviceSnapshot.LaterGrantHidesValidOne`); `DeviceSnapshot.DeviceAcceptsExactly` gives the exact condition, and
  `DeviceSnapshot.LaterSourceDecides` says which source wins.
- `escapeCsvCell` announces RFC 4180 but leaves a lone carriage return unquoted, and passes characters outside TEXTDATA through (the
  headers have accents); `Csv.ConformsExactly` gives the exact condition for every character set and `Csv.ConformsToRfc4180` for
  the ABNF to the letter. The reader used for the round trip accepts all cells.
- Lessons without a length are missed where two windows only touch (`AcademyScheduling.BorderLessonIsMissed`);
  `AcademyScheduling.ComputePossibleLessonSlots` says exactly which ones are found.

## Model

| member | source | states |
|---|---|---|
| WalletProofs.GreedyIsExact | apps/api/src/modules/wallet/wallet.service.ts:367-385 | a sufficient balance is split exactly, within each origin, bonus before paid before offered credits |
| WalletProofs.GreedyFailsExactlyWhenShort | apps/api/src/modules/wallet/wallet.service.ts:367-385 | the inconsistency throw is reached exactly when the positive origin balances do not add up to the amount |
| WalletProofs.ProportionalIsFair | apps/api/src/modules/wallet/wallet.service.ts:388-412 | a refund hands out exactly the amount, never more than refundable per origin, each origin off its exact share by more than -1 and at most +2 cents |
| WalletProofs.LeftoversGoInOrder | apps/api/src/modules/wallet/wallet.service.ts:388-412 | every origin gets at least its exact share rounded down; leftover cents fill the bonus first, then paid, then offered credits |
| WalletProofs.RefundOrderIsUnique | apps/api/src/modules/wallet/wallet.service.ts:388-412 | that order leaves only one breakdown |
| WalletProofs.CaptureIsTotal | apps/api/src/modules/wallet/wallet.service.ts:290-323 | on a sound wallet every capture succeeds and is covered origin by origin |
| WalletProofs.ApplyKeepsInv | apps/api/src/modules/wallet/wallet.service.ts:39-385 | one operation with a non-negative amount keeps solvency per origin, covered reservations, hold conservation and refunds within debits, and never throws the inconsistency |
| WalletProofs.RunKeepsInv | apps/api/src/modules/wallet/wallet.service.ts:39-385 | the same after every run from an empty ledger: origins never negative, total equals their sum, reservations within the total, every hold created = released + captured + active, its debits = what was captured, refunds within debits per booking, account and origin |
| WalletProofs.InconsistencyIsUnreachable | apps/api/src/modules/wallet/wallet.service.ts:367-385 | after any run no operation reaches the inconsistency throw, the one inside captureHold included |
| WalletProofs.FinishedHoldIsFinal | apps/api/src/modules/wallet/wallet.repository.ts:94-111 | an admin credit is accepted exactly when positive, else refused as invalid, and raises the offered credits only |
| WalletEffects.PackCredits | apps/api/src/modules/wallet/wallet.service.ts:49-80 | a debit succeeds exactly when the available balance covers it, then takes exactly its amount in the fixed order from that wallet only; else it is refused with the available and the requested amount and changes nothing |
| WalletEffects.AdminCredits | apps/api/src/modules/wallet/wallet.service.ts:82-96 | an admin credit is accepted exactly when positive and raises the offered credits only |
| WalletEffects.AdminDebits | apps/api/src/modules/wallet/wallet.service.ts:98-125 | a booking refund succeeds exactly when refundable and gives that wallet exactly its amount back, in the one breakdown of LeftoversGoInOrder over what the booking was charged per origin; refused it is invalid and changes nothing |
| WalletEffects.DebitSpends | apps/api/src/modules/wallet/wallet.service.ts:127-147 | the same for the refund of a bar account |
| WalletEffects.SpendingIsUnique | apps/api/src/modules/wallet/wallet.service.ts:25 | the fixed order leaves only one way to spend an amount |
| WalletEffects.BookingRefundReturns | apps/api/src/modules/wallet/wallet.service.ts:330-364 | a booking refund succeeds exactly when refundable and gives back exactly its amount to that wallet, within the refundable part of each origin; refused it changes nothing |
| WalletEffects.AccountRefundReturns | apps/api/src/modules/wallet/wallet.service.ts:181-216 | the same for the refund of a bar account |
| WalletEffects.HoldReserves | apps/api/src/modules/wallet/wallet.service.ts:219-240 | a hold succeeds exactly when the available balance covers it, reserves its amount and moves no balance |
| WalletEffects.ReleaseFrees | apps/api/src/modules/wallet/wallet.service.ts:242-287 | a release frees the whole active amount, a partial one the smaller of the two amounts, and neither moves a balance |
| WalletEffects.CaptureSpends | apps/api/src/modules/wallet/wallet.service.ts:290-323 | a capture takes the hold's amount in the fixed order and frees the same reservation, so nobody's available balance changes |
| WalletEffects.HoldsFollow | apps/api/src/modules/wallet/wallet.repository.ts:94-111 | the whole list of holds after every operation: a new hold is appended ACTIVE, only an ACTIVE hold changes, a release that covers what is left ends it, a smaller one leaves the rest ACTIVE, and the answer is "not found" exactly for an unknown hold |
| WalletEffects.DebitChargesBooking | apps/api/src/modules/wallet/wallet.repository.ts:114-125 | a booking debit raises the net charge of that booking by its amount and of no other |
| WalletEffects.RefundCreditsBooking | apps/api/src/modules/wallet/wallet.service.ts:330-364 | a booking refund is accepted exactly up to the net charge and lowers it by its amount |
| BookingCharges.OpChargesExactly | apps/api/src/modules/wallet/wallet.repository.ts:114-125 | every wallet operation moves what any booking has been charged by exactly its own charge: accepted debits and refunds of that booking, and captures of its active holds with their whole amount |
| BookingCharges.CaptureChargesBooking | apps/api/src/modules/wallet/wallet.service.ts:290-323 | a capture charges the booking of its hold, and no other |
| BookingCharges.LegIsOneHold | apps/api/src/modules/wallet/wallet.service.ts:219-323 | a hold that is opened and then kept, released or captured: one hold row, and the available balance, the total and the charge of the booking after each |
| WalletServices.AllocateAcrossOrigins | apps/api/src/modules/wallet/wallet.service.ts:367-385 | the loop fails exactly when short and otherwise yields the greedy rows, each positive |
| WalletServices.AllocateProportionally | apps/api/src/modules/wallet/wallet.service.ts:388-412 | floors and residual loop yield the rows of the fair breakdown |
| WalletServices.WalletService.CreditFromPackPurchase | apps/api/src/modules/wallet/wallet.service.ts:49-80 | the object moves exactly as the ledger operation that PackCredits describes |
| WalletServices.WalletService.CreditAdmin | apps/api/src/modules/wallet/wallet.service.ts:82-96 | as the ledger operation that AdminCredits describes |
| WalletServices.WalletService.DebitAdmin | apps/api/src/modules/wallet/wallet.service.ts:98-125 | refuses non-positive amounts, else a debit as DebitSpends describes |
| WalletServices.WalletService.DebitForBooking | apps/api/src/modules/wallet/wallet.service.ts:127-153 | a debit as DebitSpends and DebitChargesBooking describe |
| WalletServices.WalletService.DebitForNextoreAccount | apps/api/src/modules/wallet/wallet.service.ts:155-178 | a debit of a bar account, as BarPayments.DebitMovesNet describes |
| WalletServices.WalletService.RefundForBooking | apps/api/src/modules/wallet/wallet.service.ts:330-364 | a refund as BookingRefundReturns and RefundCreditsBooking describe |
| WalletServices.WalletService.RefundForNextoreAccount | apps/api/src/modules/wallet/wallet.service.ts:181-216 | a refund of a bar account, as AccountRefundReturns and BarPayments.RefundMovesNet describe |
| WalletServices.WalletService.CreateHold | apps/api/src/modules/wallet/wallet.service.ts:219-240 | organiser share plus guarantee is base price plus service fee |
| WalletServices.WalletService.TransitionHold | apps/api/src/modules/wallet/wallet.repository.ts:94-102 | an existing hold leaves ACTIVE at most once; the answer says whether it did, and is false for an unknown id |
| WalletServices.WalletService.ReleaseHold | apps/api/src/modules/wallet/wallet.service.ts:242-263 | a release as ReleaseFrees describes |
| WalletServices.WalletService.ReleaseHoldPartially | apps/api/src/modules/wallet/wallet.service.ts:266-287 | a partial release as ReleaseFrees describes |
| WalletServices.WalletService.CaptureHold | apps/api/src/modules/wallet/wallet.service.ts:290-323 | a capture as CaptureSpends describes |
| SplitCalculator.SplitIsExact | packages/shared/src/money.ts:35-43 | the parts add up to the total, differ by at most one cent, larger ones first |
| SplitCalculator.SplitIsUnique | packages/shared/src/money.ts:35-43 | any list with those three properties is the split |
| SplitCalculator.SharesAddUp | apps/api/src/modules/bookings/split-calculator.ts:29-50 | organiser share plus guarantee is base price plus service fee, whoever carries the fee |
| SplitCalculator.SharesAreFair | apps/api/src/modules/bookings/split-calculator.ts:29-50 | shares exist exactly for a positive count; the base prices add up to the price and the first are larger by one cent at most; with ORGANIZER the first fee is the whole service fee and the others zero, with PRO_RATA the fees add up to it and are as even; the first share is the organiser's |
| SplitCalculator.FairIsUnique | apps/api/src/modules/bookings/split-calculator.ts:29-50 | from any point of any run a settlement captures exactly the unpaid shares plus what is still owed to the guarantee, from the hold or the card, debits besides what is owed to the hold, and leaves nothing payable |
| SplitCalculator.SharesAreNonNegative | apps/api/src/modules/bookings/split-calculator.ts:29-50 | no share is negative for non-negative prices |
| SplitProtocol.RunKeepsInv | apps/api/src/modules/bookings/booking-share.service.ts:118-221 | every interleaving of fair steps, before and after settlement or a refused one, keeps claims exclusive, collections single, and guarantee and hold balanced against what is unpaid and in flight |
| SplitProtocol.NoDoubleCollection | apps/api/src/modules/bookings/booking-share.service.ts:118-221 | no share is collected twice and no payer ends in the double-payment branch |
| SplitSettlement.NeverCollectedTwice | apps/api/src/modules/bookings/booking-share.service.ts:118-229 | over every interleaving, unfair settlements and any wallet traffic included, no share is collected twice and no two payers hold a claim on one share |
| SplitMoney.PayerPaysItsShare | apps/api/src/modules/bookings/booking-share.service.ts:134-172 | a payer with a claim pays exactly its share's total: from its wallet exactly when that much is available, in the fixed order, for that booking alone, or by card exactly when accepted; else it is refused and no money moves |
| SplitMoney.MoneyInIsExact | apps/api/src/modules/bookings/booking-share.service.ts:118-221 | at every point of every run of fair steps: what wallets have been charged for the booking is what wallet payers have paid plus the captured hold, what cards have been charged is the organiser's share plus card payers plus a captured card guarantee, and both together are the paid shares, the settlement and what was just collected |
| SplitProtocol.MarkAlwaysSucceeds | apps/api/src/modules/bookings/booking-share.repository.ts:36-51 | a payer that has collected always gets its share marked PAID |
| SplitProtocol.MoneyIsConserved | apps/api/src/modules/bookings/booking-guarantee.service.ts:71-133 | at every point of every run, after a FAILED guarantee too: paid shares + captured + remaining = price (plus what is paid and not yet taken off), and remaining = unpaid shares plus that same amount |
| SplitProtocol.AtRestEverythingAgrees | apps/api/src/modules/bookings/booking-guarantee.service.ts:71-133 | with nobody in flight the sums are exact and the active hold equals the remaining guarantee |
| SplitProtocol.HoldFollowsGuarantee | apps/api/src/modules/wallet/wallet.service.ts:266-287 | at every point the active hold is the remaining guarantee plus the releases not yet applied to it, on a sound wallet |
| SplitSettlement.SettlementTakes | apps/api/src/modules/bookings/booking-guarantee.service.ts:99-133 | from any point of any run a settlement captures the unpaid shares plus what is still owed to the guarantee, debits besides what is owed to the hold, and leaves nothing payable |
| SplitSettlement.SettlementIsExactWhen | apps/api/src/modules/bookings/booking-guarantee.service.ts:99-133 | the organiser is debited exactly the unpaid shares if and only if nothing is owed or nothing remains |
| SplitSettlement.FairIsExact | apps/api/src/modules/bookings/booking-share.service.ts:118-229 | one settlement step of the protocol, and outright: what is captured, the guarantee, every share, cards and wallet for a finished or empty guarantee, a refused card, and a capture |
| SplitSettlement.SoundExactlyWhenFair | apps/api/src/modules/bookings/booking-share.service.ts:118-229 | the calls of one partial release are protocol steps of its payer and do what the wallet's partial release does |
| SplitSettlement.SettlingInFlightChargesTwice | apps/api/src/modules/bookings/booking-guarantee.service.ts:99-133 | a live guarantee that has the amount left gives it up, and its hold too, and is RELEASED when nothing is left; any other stays; all in protocol steps |
| SplitSettlement.SettlingBeforeRollbackReopens | apps/api/src/modules/bookings/booking-share.service.ts:224-229 | one payShare call is a sequence of protocol steps of one new payer; undisturbed, it answers by the share's status and by what wallet or card can pay, a payment takes the whole share, marks it PAID and gives as much of the guarantee back, and any other answer leaves shares, guarantee and money as they were |
| SplitSettlement.StatusIsLastWrite | apps/api/src/modules/bookings/booking-guarantee.repository.ts:22-25 | before settlement the guarantee status is ACTIVE until the first write and then what the last write reread |
| SplitSettlement.StatusIsRightWhen | apps/api/src/modules/bookings/booking-guarantee.service.ts:71-94 | at rest with nothing remaining, some write said RELEASED, and the status says so if and only if the last write had reread zero |
| SplitSettlement.ReleasedCanBeOverwritten | apps/api/src/modules/bookings/booking-guarantee.service.ts:71-94 | from every confirmed booking of two unpaid shares worth something on a card guarantee, a run that ends with both paid, nothing remaining and PARTIALLY_RELEASED |
| SplitServices.SplitBooking.ClaimForPayment | apps/api/src/modules/bookings/booking-share.repository.ts:36-43 | which of seven answers each case gets, in order, and what each leaves: CARD_FAILED and bad participants leave it CHECKOUT_PENDING with nothing; a taken slot FAILED with the payment CANCELED and the guarantee given up; an uncertain Legacy or a failed capture MANUAL_REVIEW with the guarantee whole and the payment AUTHORIZED or PAYMENT_FAILED; CONFIRMED a starting state of the share protocol at base price plus fee, one share per participant, INVITED exactly where there is an address |
| SplitServices.SplitBooking.MarkPaidIfPayable | apps/api/src/modules/bookings/booking-share.repository.ts:45-51 | succeeds exactly on an existing payable share, and only then writes |
| SplitServices.SplitBooking.ReleaseAmount | apps/api/src/modules/bookings/booking-guarantee.repository.ts:15-21 | decrements exactly when the guarantee is live and large enough |
| SplitServices.SplitBooking.CoverUnpaidSharesWithGuarantee | apps/api/src/modules/bookings/booking-share.service.ts:224-229 | covers exactly the payable shares |
| SplitServices.SplitBooking.Settle | apps/api/src/modules/bookings/booking-guarantee.service.ts:99-133 | capture and cover are one settlement step of the protocol, from any status; the captured amount is what it added |
| SplitServices.SplitBooking.ReleaseHoldPartially | apps/api/src/modules/wallet/wallet.service.ts:266-287 | the calls of one partial release are protocol steps of its payer |
| SplitServices.SplitBooking.ReleaseForPaidShare | apps/api/src/modules/bookings/booking-guarantee.service.ts:71-94 | so are the calls that take a paid share off the guarantee and the hold |
| SplitServices.SplitBooking.PayShare | apps/api/src/modules/bookings/booking-share.service.ts:118-221 | one payShare call on an existing share is a sequence of protocol steps of one new payer that ends out of flight, and the answer says in which phase; an unknown share changes nothing |
| SplitCheckouts.SplitCheckoutService.CreateSharesAndInvite | apps/api/src/modules/bookings/booking-share.service.ts:41-96 | one row per participant with its share, the organiser's PAID, INVITED exactly where there is an address |
| SplitCheckouts.SplitCheckoutService.CreateGuarantee | apps/api/src/modules/bookings/booking-guarantee.service.ts:32-58 | moves exactly as the step those lemmas describe; an accepted payment appends a RECORDED row, one the wallet refuses a FAILED row |
| SplitCheckouts.SplitCheckoutService.ReleaseEntirely | apps/api/src/modules/bookings/booking-guarantee.service.ts:60-68 | moves exactly as that step; only a RECORDED payment becomes REVERSED |
| SplitCheckouts.SplitCheckoutService.Checkout | apps/api/src/modules/payments/split-checkout.service.ts:100-322 | CONFIRMED exactly when the booking was pending, the party fits, the card was authorised, the wallet could reserve the guarantee (or the card guarantees), Legacy created it and the capture succeeded; then it is a starting state of the share protocol at base price plus fee; CHECKOUT_PENDING and FAILED keep no hold, nothing authorised or captured |
| BarPayments.DebitMovesNet | apps/api/src/modules/wallet/wallet.service.ts:155-178 | a bar debit raises the net of its account by its amount and of no other |
| BarPayments.RefundMovesNet | apps/api/src/modules/wallet/wallet.service.ts:181-216 | a bar refund is accepted exactly up to the net and lowers it by its amount |
| BarPayments.OtherOpsLeaveAccount | apps/api/src/modules/wallet/wallet.repository.ts:141-165 | no other wallet operation touches the debits or refunds of a bar account |
| BarPayments.RunKeepsInv | apps/api/src/modules/nextore/payments.service.ts:40-201 | over every run, wallet debits minus refunds of an account equal its RECORDED wallet payments, and keys are unique |
| BarPayments.ReversalIsNeverRefused | apps/api/src/modules/nextore/payments.service.ts:163-201 | no reversal is refused for exceeding the debit |
| BarPayments.ReversalGivesBack | apps/api/src/modules/nextore/payments.service.ts:163-201 | in every run of safe claims, CHECKOUT_PENDING and FAILED have no captured hold, no captured or still authorised card, and no active hold except exactly those that a catch block is about to release |
| BarPayments.ReplayChangesNothing | apps/api/src/modules/nextore/payments.repository.ts:6-8 | a used idempotency key answers with its payment and changes nothing |
| BarPayments.AllReversedMeansEven | apps/api/src/modules/nextore/payments.service.ts:163-201 | from any sound state and for a price above zero, one more step leaves the last four promises true however the run goes on by safe steps, if and only if that step is safe |
| BarEffects.CashOrCardIsRecorded | apps/api/src/modules/nextore/payments.service.ts:40-88 | a cash or card payment with a new key, a positive amount and an account that is not closed is always RECORDED: its account owes that much less and is PARTIALLY_PAID, no other account and no wallet changes, and the change is what exceeds the due |
| BarEffects.WalletPaymentIsTaken | apps/api/src/modules/nextore/payments.service.ts:90-141 | a payment in credits is accepted exactly when the named participant's customer, else the account's, has that much available; then that wallet spends it in the fixed order on this account; else a FAILED row is all that is left |
| BarEffects.RefusedChangesNothing | apps/api/src/modules/nextore/payments.service.ts:40-104 | a used key replays its payment; otherwise a bad amount, a closed account or nobody to pay is invalid and an unknown account missing; nothing changes |
| BarEffects.AcceptedAdds | apps/api/src/modules/nextore/payments.service.ts:40-141 | what every accepted payment does, and that the change exceeds the payment exactly when the account had been overpaid before |
| BarEffects.ReversalRaisesDue | apps/api/src/modules/nextore/payments.service.ts:163-201 | a RECORDED payment is reversed and its account owes it again; cash and card touch no wallet, credits go back to the wallet that would pay, and are refused exactly when that is not known |
| BarEffects.OnlyRecordedIsReversed | apps/api/src/modules/nextore/payments.service.ts:163-172 | without a reason, without a payment, twice, or for a FAILED payment: refused or replayed without any effect |
| BarEffects.PaidThenReversed | apps/api/src/modules/nextore/payments.service.ts:40-201 | after any run, an accepted payment can be reversed at once, and then every due, and the payer's wallet, is what it was before |
| BarEffects.LineIsRounded | apps/api/src/modules/nextore/accounts.service.ts:75-78 | a line costs its exact price to the nearest cent, halves up |
| BarEffects.SalesMoveDue | apps/api/src/modules/nextore/accounts.service.ts:131-218 | selling on an account that is not closed adds the line to its due, voiding takes it off once, and an account closes exactly by force or with nothing due |
| BarPayments.PaymentsService.RecordPayment | apps/api/src/modules/nextore/payments.service.ts:40-141 | rows, debit and account status change exactly as the step the run theorems speak about |
| BarPayments.PaymentsService.ReversePayment | apps/api/src/modules/nextore/payments.service.ts:163-201 | refund and status change exactly as that step |
| CheckoutProofs.StepKeeps | apps/api/src/modules/payments/checkout.service.ts:79-370 | every safe step, in the middle of the two exits too, has an owner afterwards: nobody, one request, or a payment awaiting 3D Secure, with the holds and payments that situation allows, besides holds that catch blocks are giving back |
| CheckoutTheorems.RunKeeps | apps/api/src/modules/payments/checkout.service.ts:79-370 | each provider answer is one protocol step, with its row of exactly what the credits leave, its status, and the hold released exactly for a refusal or a missing card |
| CheckoutTheorems.OneCheckoutAtATime | apps/api/src/modules/payments/checkout.service.ts:93-212 | the three Legacy answers are one protocol step: CREATED changes nothing; a taken slot cancels that payment, releases that hold and fails the booking; an uncertain answer keeps both for MANUAL_REVIEW |
| CheckoutTheorems.OneAtATimeExactly | apps/api/src/modules/payments/checkout.service.ts:93-212 | two protocol steps: a PAYMENT_PENDING booking is reopened and then its hold released, any other is left alone |
| CheckoutTheorems.WalletStaysSound | apps/api/src/modules/payments/checkout.service.ts:79-370 | Legacy, card capture, wallet capture and confirmation are consecutive protocol steps; the answer, the status, the payment row and the wallet in each case |
| CheckoutTheorems.ConfirmedIsFullyPaid | apps/api/src/modules/payments/checkout.service.ts:255-370 | a whole request is a sequence of protocol steps of one new thread that returns; undisturbed, it applies min(asked, available, price) of credits and the card for the rest, answers for the first thing that stops it, and leaves status, payment row and hold that fit: RELEASED, ACTIVE or CAPTURED |
| CheckoutTheorems.OpenOrFailedKeepsNothing | apps/api/src/modules/payments/checkout.service.ts:79-253 | the 3D Secure webhook is its event followed by steps of its own thread; it ends like an immediate payment, by Legacy and capture; repeated it does nothing |
| CheckoutTheorems.ReviewKeepsBothLegs | apps/api/src/modules/payments/checkout.service.ts:263-333 | one protocol step: PAYMENT_FAILED, the active hold released, FAILED unless CONFIRMED; nothing for a payment that succeeded or failed before |
| CheckoutTheorems.CaptureMeansConfirmed | apps/api/src/modules/payments/checkout.service.ts:311-345 | in every run of safe claims, a capture implies CONFIRMED, or a request that has only captures and the confirmation left |
| CheckoutRaces.SafeExactly | apps/api/src/modules/payments/checkout.service.ts:93-213 | from any sound state and for a price above zero, one more step leaves the last three promises true however the run goes on by safe steps, if and only if that step is safe |
| CheckoutRaces.SafeIsExactInRuns | apps/api/src/modules/payments/checkout.service.ts:93-213 | the same at every point of every run of safe claims |
| CheckoutRaces.UnsafeClaimCapturesWrongly | apps/api/src/modules/payments/checkout.service.ts:125-135 | after every single unsafe claim, safe steps alone can confirm the booking with a wrong amount captured, with one card payment at most |
| CheckoutRaces.ConfirmedCanBeReopened | apps/api/src/modules/payments/checkout.service.ts:125-135 | from every open booking, a run in which the un-claim of the exit without a card puts a CONFIRMED, fully paid booking back to CHECKOUT_PENDING, everybody done and the money kept |
| CheckoutRaces.ConfirmedCanBeFailed | apps/api/src/modules/payments/checkout.service.ts:282-297 | from every open booking, a run in which a taken slot puts a CONFIRMED, fully paid booking to FAILED, everybody done and the money kept |
| CheckoutTheorems.CapturingAlwaysConfirms | apps/api/src/modules/payments/checkout.service.ts:335-345 | in every run whatever, that request confirms whenever it moves and whatever it is answered: the wallet capture cannot fail after the card |
| CheckoutTheorems.PendingIsNeverOrphaned | apps/api/src/modules/payments/checkout.service.ts:93-213 | in every run whatever, PAYMENT_PENDING has a payment awaiting 3D Secure or a request that is in checkout and has not reopened the booking |
| CheckoutRaces.HalfExitLetsTwoIn | apps/api/src/modules/payments/checkout.service.ts:125-135 | the exit without a payment method un-claims twice: from every open booking some interleaving has two requests in checkout |
| CheckoutRaces.HalfUnwindLeavesTwoHolds | apps/api/src/modules/payments/checkout.service.ts:199-212 | the catch block reopens the booking before releasing its hold: whoever claims in between and reserves makes two holds active |
| CheckoutRaces.TwoHoldsAreReachable | apps/api/src/modules/payments/checkout.service.ts:199-212 | and such an interleaving exists from every open booking with two cents to reserve |
| CheckoutRaces.ConfirmedCanBeUnderpaid | apps/api/src/modules/payments/checkout.service.ts:199-253 | counts exactly for DELIVERED, making that command alone SUCCESS or FAILED as reported; the refusal says EXPIRED exactly for an expired command |
| CheckoutProofs.WalletCaptureKeeps | apps/api/src/modules/payments/checkout.service.ts:335-337 | 304 exactly when the revision of the content is the one the device has; the ids are exactly the waiting commands not past their time, oldest first; those past their time become EXPIRED, and with content every other waiting one DELIVERED |
| CheckoutServices.CheckoutService.TransitionStatus | apps/api/src/modules/bookings/bookings.repository.ts:162-165 | compare-and-set on the booking status |
| CheckoutServices.CheckoutService.CardCall | apps/api/src/modules/payments/checkout.service.ts:116-187 | the loop is a sequence of protocol steps up to the first acknowledgement call that raises, and completes exactly when none does; every command up to there is acknowledged, and only commands of the batch are run |
| CheckoutServices.CheckoutService.LegacyCall | apps/api/src/modules/payments/checkout.service.ts:263-309 | the three Legacy answers are one protocol step: go on, void and fail, or review |
| CheckoutServices.CheckoutService.CaptureCardCall | apps/api/src/modules/payments/checkout.service.ts:311-333 | a capture makes that payment SUCCEEDED and goes on; a failed one makes it PAYMENT_FAILED and the booking MANUAL_REVIEW |
| CheckoutServices.CheckoutService.CatchBlock | apps/api/src/modules/payments/checkout.service.ts:199-212 | the catch block is two protocol steps, the conditional re-opening and the conditional release, and ends by returning |
| CheckoutServices.CheckoutService.ProceedAfterAuthorization | apps/api/src/modules/payments/checkout.service.ts:255-370 | Legacy, card capture, wallet capture and confirmation are consecutive protocol steps; the answer fixes the status |
| CheckoutServices.CheckoutService.Checkout | apps/api/src/modules/payments/checkout.service.ts:79-213 | a whole request is a sequence of protocol steps of one new thread that returns; the answer fixes the status, PAYMENT_PENDING included |
| CheckoutServices.CheckoutService.ContinueAfterAuthorizationConfirmed | apps/api/src/modules/payments/checkout.service.ts:216-230 | the 3D Secure webhook is its event followed by steps of its own thread, which returns; repeated it does nothing |
| CheckoutServices.CheckoutService.HandlePaymentFailedViaWebhook | apps/api/src/modules/payments/checkout.service.ts:233-248 | the failure webhook is one protocol step |
| DeviceCommands.RunKeepsInv | apps/api/src/scripts/ardenne_access_service.py:333-344 | over a lossy network the device remembers exactly the last 500 runs, two runs of a command are more than 500 apart with the command live throughout, and acknowledgements and statuses rest on runs |
| DeviceCommands.NeverRunTwice | apps/api/src/scripts/ardenne_access_service.py:446-462 | one flush is exactly the protocol moves for what the network did: only the 50 oldest unsent events are recorded, all of them when processed, and they are marked sent exactly when the answer arrives |
| DeviceCommands.FinishedWasRun | apps/api/src/modules/automation/automation-device.repository.ts:125-131 | SUCCESS or FAILED implies the command was run, and FAILED that a run failed |
| DeviceCommands.FinishedRanExactlyOnce | apps/api/src/modules/automation/automation-device.repository.ts:125-131 | SUCCESS or FAILED implies exactly one run, and FAILED that it failed, if fewer than 500 others were run while the command could still reach the device |
| DeviceCommands.FinishedIsForEver | apps/api/src/modules/automation/automation-device.repository.ts:116-140 | right after a sync every code the device accepts is valid now in one of the three sources |
| DeviceCommands.FirstAckIsTrue | apps/api/src/scripts/ardenne_access_service.py:446-462 | every acknowledgement is about a run command; a first one reports its outcome, a repeated one always says SUCCESS |
| DeviceCommands.SuccessIsFalseExactly | apps/api/src/modules/automation/automation-device.repository.ts:125-131 | every finished command has the acknowledgement that finished it; a first one tells the truth, and a command without a successful run is SUCCESS if and only if a repeated one finished it, the true report then being on the network |
| DeviceCommands.OneManualAtATime | apps/api/src/modules/automation/automation.service.ts:195-217 | two manual commands are never in flight together |
| DeviceCommands.FailedRunShownAsSuccess | apps/api/src/scripts/ardenne_access_service.py:449-454 | after a sync a zone's light is due exactly from its margin before the start of an occupied window of its court to its margin after the end |
| CommandBound.FiveHundredOthersCanRepeat | apps/api/src/scripts/ardenne_access_service.py:333-344 | the loop over the zones builds exactly the content the theorems speak about: every zone and command, and the grants of all three sources and no others |
| CommandServices.CommandServer.QueueManualCommand | apps/api/src/modules/automation/automation.service.ts:195-217 | finds a valid grant of one of the three sources exactly when there is one |
| CommandServices.CommandServer.AckCommand | apps/api/src/modules/automation/automation.service.ts:270-279 | counts exactly for DELIVERED; the refusal says EXPIRED exactly for an expired command |
| CommandServices.CommandServer.BuildSnapshot | apps/api/src/modules/automation/automation.service.ts:322-411 | 304 exactly when the revision of the deliverable commands and their content is the one the device has; only content marks DELIVERED, and exactly the delivered commands |
| CommandServices.AccessService.MarkExecuted | apps/api/src/scripts/ardenne_access_service.py:333-344 | the newest 500 ids are kept |
| CommandServices.AccessService.ExecuteCommands | apps/api/src/scripts/ardenne_access_service.py:446-462 | the loop is a sequence of protocol steps that goes on to the first acknowledgement call that raises, and completes exactly when none does |
| CommandServices.AccessService.SyncSnapshot | apps/api/src/scripts/ardenne_access_service.py:425-444 | True exactly for a 304, or content that is applied and whose acknowledgement calls go through; state and stored revision after each way it can go |
| DeviceEvents.RecordAllExact | apps/api/src/modules/automation/automation-device.repository.ts:38-62 | recording keeps what is there, adds each missing event once, nothing else, and then has them all |
| DeviceEvents.RecordAgain | apps/api/src/modules/automation/automation-device.repository.ts:38-62 | recording recorded events changes nothing |
| DeviceEvents.PendingExact | apps/api/src/scripts/ardenne_access_service.py:353-357 | a batch is the oldest unsent rows in order, at most 50 |
| DeviceEvents.RecordedExactlyOnce | apps/api/src/scripts/ardenne_access_service.py:535-548 | at every point of every run the server has no duplicate, nothing that was not queued, and every event marked sent |
| DeviceEvents.NeverLost | apps/api/src/scripts/ardenne_access_service.py:346-363 | a queued event stays in the queue unchanged for ever, and is recorded once marked sent |
| DeviceEvents.FlushDelivers | apps/api/src/scripts/ardenne_access_service.py:535-548 | an undisturbed flush sends and records the oldest 50 unsent events, or all of them |
| DeviceEvents.EventStore.RecordEvents | apps/api/src/modules/automation/automation-device.repository.ts:38-62 | the insert loop records the processed prefix and counts accepted and duplicate events |
| DeviceEvents.EventOutbox.FlushEvents | apps/api/src/scripts/ardenne_access_service.py:535-548 | one flush is exactly the protocol moves for what the network did |
| DeviceSnapshot.SyncedIsExact | apps/api/src/scripts/ardenne_access_service.py:425-444 | in any run without a hash collision: after any 200 or 304 the cache is the server's snapshot applied to an empty cache; a poll that arrives ends so exactly when zone keys are distinct; every other poll changes nothing |
| DeviceSnapshot.DeviceAcceptsExactly | apps/api/src/scripts/ardenne_access_service.py:368-377 | a code is accepted exactly when a grant valid now has no later grant of the same scope and code |
| DeviceSnapshot.LaterSourceDecides | apps/api/src/modules/automation/automation.service.ts:356-383 | which source decides: a Doinsport grant, else a staff grant whose scope and code Doinsport does not have, else a generated one neither has; within a source the later one |
| DeviceSnapshot.DeviceNeverExceedsServer | apps/api/src/modules/automation/automation.service.ts:420-453 | right after a sync every code the device accepts is accepted by the server's check |
| DeviceSnapshot.DoorFollowsServer | apps/api/src/scripts/ardenne_access_service.py:368-377 | in any run of polls without a hash collision: right after a 200 or 304, every code the door accepts is one the server accepts, whatever was lost before |
| DeviceSnapshot.ChecksAgree | apps/api/src/modules/automation/automation.service.ts:420-453 | with distinct (scope, code) pairs the two checks agree |
| DeviceSnapshot.LaterGrantHidesValidOne | apps/api/src/scripts/ardenne_access_service.py:288-291 | otherwise a later grant can hide a valid one |
| DeviceSnapshot.LightFollowsOccupation | apps/api/src/modules/automation/automation.service.ts:338-351 | after a sync a zone's light is due exactly when an occupied window of its court, widened by the margins, contains the instant |
| DeviceSnapshot.BuildSnapshot | apps/api/src/modules/automation/automation.service.ts:322-411 | the loop over the zones builds exactly the content the theorems speak about |
| DeviceSnapshot.TestAccessCode | apps/api/src/modules/automation/automation.service.ts:420-453 | finds a matching valid grant exactly when there is one |
| SnapshotServices.LocalCache.ApplySnapshot | apps/api/src/scripts/ardenne_access_service.py:278-300 | MATCHED with p exactly when p is the only recorded card payment of that amount within three days that no entry has, AMBIGUOUS exactly with two or more, UNMATCHED exactly with none |
| SnapshotServices.LocalCache.ValidateCode | apps/api/src/scripts/ardenne_access_service.py:368-377 | answers a scope exactly when the cache accepts the code, and one whose grant is valid |
| SnapshotServices.LocalCache.EvaluateLighting | apps/api/src/scripts/ardenne_access_service.py:480-506 | every light zone ends in its due state where the controller obeys, in its old state where not; others are untouched |
| SnapshotServices.LocalCache.SyncSnapshot | apps/api/src/scripts/ardenne_access_service.py:425-444 | the conditional poll does exactly what the run theorems speak about |
| LightIntervals.MergeLightIntervals | apps/api/src/modules/automation/light-interval-merger.ts:18-33 | the loop computes the merge the lemmas below describe |
| LightIntervals.MergeKeepsCover | apps/api/src/modules/automation/light-interval-merger.ts:18-33 | a whole import adds one entry per line with its date and amount, and keeps earlier verdicts and the exclusiveness and exactness of matches |
| LightIntervals.MergeIsNormal | apps/api/src/modules/automation/light-interval-merger.ts:18-33 | there is a gap between any two merged intervals |
| LightIntervals.NormalIsUnique | apps/api/src/modules/automation/light-interval-merger.ts:12-17 | two separated lists covering the same instants are equal |
| LightIntervals.MergeDependsOnCoverOnly | apps/api/src/modules/automation/light-interval-merger.ts:18-33 | inputs covering the same instants merge to the same list |
| LightIntervals.MergeIgnoresOrder | apps/api/src/modules/automation/light-interval-merger.ts:18-33 | the input order does not matter |
| LightIntervals.MergeIsIdempotent | apps/api/src/modules/automation/light-interval-merger.ts:18-33 | merging the output changes nothing |
| SlotCalculator.AllowedDurationsAt | apps/api/src/modules/availability/slot-calculator.ts:42-50 | behind the byte order mark the reader finds the headers and one row per member, each of the fourteen values under its header |
| SlotCalculator.ComputeAvailableSlots | apps/api/src/modules/availability/slot-calculator.ts:57-80 | two exports are only the same text when they show the same, member by member and column by column |
| SlotCalculator.ResultIsUnique | apps/api/src/modules/availability/slot-calculator.ts:57-80 | over any character set, a printed cell is a plain or a properly escaped field exactly when its characters are of the set or structural and a carriage return comes with a quote, a comma or a line feed |
| SlotCalculator.BlockingNeverAdds | apps/api/src/modules/availability/slot-calculator.ts:57-80 | more blocked ranges never add an offer |
| SlotCalculator.OfferAvoidsBlocked | apps/api/src/modules/availability/slot-calculator.ts:34-36 | no offer overlaps a blocked range |
| SlotCalculator.OffersByMinute | apps/api/src/modules/availability/slot-calculator.ts:57-80 | for ranges that are not empty: a start and a duration are offered exactly when the start is a whole number of steps from the start of the day, a duration window around it allows the duration, and every minute lies in one opening window and in no blocked range |
| SlotCalculator.DayCoversOpenings | apps/api/src/modules/availability/slot-calculator.ts:60-61 | the day starts at the earliest opening or midnight and ends at the latest closing or midnight |
| AcademyScheduling.IntersectRangeLists | apps/api/src/modules/academy/academy-scheduling.ts:61-70 | exactly the non-empty overlaps of one window of each list |
| AcademyScheduling.FitsIntersection | apps/api/src/modules/academy/academy-scheduling.ts:54-70 | a lesson of positive length fits the intersection exactly when it fits both lists |
| AcademyScheduling.CommonWindows | apps/api/src/modules/academy/academy-scheduling.ts:82-91 | exactly the non-empty overlaps of one window of everybody, early stop included; a lesson of positive length fits them exactly when the teacher and every student are free |
| AcademyScheduling.Place | apps/api/src/modules/academy/academy-scheduling.ts:105-117 | adds exactly that court to exactly that start |
| AcademyScheduling.ComputePossibleLessonSlots | apps/api/src/modules/academy/academy-scheduling.ts:77-121 | for any length exactly the starts inside a common window, never one that is not possible; for a positive length every possible start once, in order, with exactly its courts |
| AcademyScheduling.LessonsAvoidBlocked | apps/api/src/modules/academy/academy-scheduling.ts:77-121 | fed by the slot calculator, no lesson overlaps a blocked range of a court it lists, and everybody is free |
| AcademyScheduling.BorderLessonIsMissed | apps/api/src/modules/academy/academy-scheduling.ts:54-58 | for a lesson without length every computed result can miss a possible start: one where two windows only touch |
| Reconciliation.TurnDecides | apps/api/src/modules/nextore/reconciliation.service.ts:69-87 | MATCHED with p exactly when p is the only candidate, AMBIGUOUS exactly with two or more, UNMATCHED exactly with none |
| Reconciliation.CandidatesExact | apps/api/src/modules/nextore/reconciliation.repository.ts:39-60 | the query lists exactly the unmatched recorded card payments of that amount in the window, each once |
| Reconciliation.NoPaymentMatchedTwice | apps/api/src/modules/nextore/reconciliation.repository.ts:39-60 | over any sequence of imports no payment is matched by two entries |
| Reconciliation.MatchesAreExact | apps/api/src/modules/nextore/reconciliation.service.ts:69-87 | every match has the exact amount and lies in the window |
| Reconciliation.MatchesStay | apps/api/src/modules/nextore/reconciliation.service.ts:69-87 | a match is never taken back automatically |
| Reconciliation.ImportKeepsInv | apps/api/src/modules/nextore/reconciliation.service.ts:30-67 | a whole import keeps earlier verdicts and the exclusiveness and exactness of matches |
| Reconciliation.OlderLineGoesFirst | apps/api/src/modules/nextore/reconciliation.service.ts:62-66 | a payment that a younger line of an import gets and an older one would also fit leaves the older one AMBIGUOUS, never without a candidate |
| Reconciliation.ByDateIsExact | apps/api/src/modules/nextore/reconciliation.repository.ts:14-16 | every new entry gets exactly one turn, in date order |
| Reconciliation.ReconciliationService.AutoMatchEntry | apps/api/src/modules/nextore/reconciliation.service.ts:69-87 | one turn of the protocol; an unknown entry is left alone |
| Reconciliation.ReconciliationService.ImportBatch | apps/api/src/modules/nextore/reconciliation.service.ts:30-67 | refused exactly for an empty statement or a non-positive amount, else one turn per line in date order |
| Csv.FieldRoundTrip | apps/api/src/modules/afpadel/afp-member-csv.ts:20-26 | any printed cell is read back, whatever follows it |
| Csv.PrintedAsItIs | apps/api/src/modules/afpadel/afp-member-csv.ts:20-26 | a cell is printed unchanged exactly when it has no quote, comma or line feed |
| Csv.TableRoundTrip | apps/api/src/modules/afpadel/afp-member-csv.ts:28-34 | any table whose rows have two or more cells is read back exactly |
| Csv.ExportRoundTrip | apps/api/src/modules/afpadel/afp-member-csv.ts:28-34 | behind the byte order mark the reader finds the headers and every member |
| Csv.ExportIsInjective | apps/api/src/modules/afpadel/afp-member-csv.ts:28-34 | different tables never print alike |
| Csv.ConformsExactly | apps/api/src/modules/afpadel/afp-member-csv.ts:20-26 | over any character set, a printed cell is a plain or a properly escaped field exactly when its characters are of the set or structural and a carriage return comes with something that gets it quoted |
| Csv.ConformsToRfc4180 | apps/api/src/modules/afpadel/afp-member-csv.ts:20-26 | the same for the TEXTDATA of RFC 4180, to the letter |

## Left out

- CheckoutTheorems.ConfirmedIsFullyPaid: covers runs of safe claims, as do OpenOrFailedKeepsNothing, ReviewKeepsBothLegs and CaptureMeansConfirmed; `SafeExactly` shows that no weaker rule about single claims would do.
- SplitCheckouts.SplitCheckoutService.Checkout: a guarantee step that throws leaves PAYMENT_PENDING with the organiser's authorisation, as in the code, which has no rollback there; the model shows the state and claims nothing about it. The membership check on the participants and the price preview are left out.
- SplitMoney.MoneyInIsExact: other wallet traffic of the run charges the booking nothing, such as an admin's refund of it.
- SplitServices.SplitBooking.PayShare: the expiry of the invitation link, which the code checks before the first step shown here.
- CheckoutServices.CheckoutService.Checkout: the exact answer is that of a request nobody disturbs, on a sound wallet; disturbed requests are the subject of the run theorems.
- DeviceCommands.NeverRunTwice: ties and backward jumps of the device clock, which would disturb the order of the 500 kept rows, are not modelled; nor is delivery liveness, since a later 304 can hide a command that was never executed.
- DeviceSnapshot.DeviceNeverExceedsServer: speaks about the instant of the sync; a code revoked afterwards stays accepted until the next one.
- CommandServices.CommandServer.QueueManualCommand: one device; heartbeats, which move the time it was last seen, and the zone commands of `queueCommand` are steps of others.
- Csv.ExportRoundTrip: numbers and birth dates enter as printed text; decimal printing and ISO dates are library calls.
- AcademyScheduling.ComputePossibleLessonSlots: the constant fields date, teacher and students of a result are dropped.
- SlotCalculator.ComputeAvailableSlots: a step of zero or less, with which the loop of the source would not end, is excluded.
- Reconciliation.NoPaymentMatchedTwice: two imports racing between query and update, and the manual confirmation, which may reuse a payment.
- Interleaving inside one wallet operation: debits and captures read balances and then write without a conditional update, so two of them racing are not covered.
- The optimistic version counter of bar accounts, catalogue prices and stock; price lines are taken as given, with exact fractional quantities rounded half up.
- Floating-point rounding of `Math.floor(x * y / z)` and of quantity times price; the model computes exactly.
- Negative amounts: no caller passes them and no theorem covers them.
- Pack expiry, cancellations and refunds of confirmed bookings, and the admin's release or capture of a hold, which bypasses the booking flow.
- Time zones, daylight saving and ISO text comparison; instants are integers or reals.
- The database queries behind the snapshot's three grant sources and the occupied windows: their results are inputs.
- Encryption, hashing, e-mail, notifications, access grants after confirmation, audit log, HTTP routing, Stripe, Doinsport, Modbus and serial clients: foreign calls or plumbing.
- Identity, CRM, reporting, settings, migration and catalogue screens: they would only add easy members.
