/**
 * Booking statuses. The bookings table stores the status as free text, so a
 * status is a string; these four are the only ones the server ever writes.
 */
module Statuses {

  const AwaitingPayment: string := "awaiting_payment"
  const Paid: string := "paid"
  const Completed: string := "completed"
  const Cancelled: string := "cancelled"

  predicate IsKnown(status: string) {
    status == AwaitingPayment || status == Paid || status == Completed || status == Cancelled
  }

  /** Statuses whose booked quantity counts against stock (server.js:40). */
  predicate IsBlocking(status: string) {
    status == AwaitingPayment || status == Paid
  }

  /** Statuses the dashboard treats as money received (admin.js:120-124). */
  predicate IsSettled(status: string) {
    status == Paid || status == Completed
  }
}
