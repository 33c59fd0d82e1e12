/**
 * The record shapes the aggregators consume (shared/types.ts).  Timestamps are
 * ECMAScript time values (milliseconds since 1970-01-01T00:00:00Z); amounts are
 * integer cents.
 */
module Types {

  /** Bucket width of a time series. */
  datatype Grain = Day | Week | Month

  datatype InvoiceStatus = Paid | Refunded | Void

  datatype Invoice = Invoice(periodStart: int, amountCents: int, status: InvoiceStatus)

  datatype Option<T> = None | Some(value: T)

  /** An absent `canceledAt` means the subscription is still running. */
  datatype Subscription = Subscription(startedAt: int, canceledAt: Option<int>)
}
