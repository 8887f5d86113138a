/**
 Statuses shared by the two checkouts, and the answers of the payment provider and of Legacy, which nobody controls.
 */
module Bookings {
  datatype BookingStatus = CheckoutPending | PaymentPending | Confirmed | Failed | ManualReview

  datatype PaymentStatus = RequiresAction | Authorized | Succeeded | Canceled | PaymentFailed

  /** What `createPayment` can do; with manual capture it never answers "succeeded". */
  datatype CardAnswer = Throws | Refused | NeedsAction | Capturable | CanceledByProvider

  datatype LegacyAnswer = Created | SlotUnavailable | Ambiguous

  datatype PaymentRow = PaymentRow(amount: int, status: PaymentStatus)
}
