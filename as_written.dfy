/**
  `updateOrder` and `refundOrder` as the C++ literally reads.

  `findOrderById` copies the queue into a local and returns the address of
  the matching element of that copy. The status write that follows lands, at
  best, in the discarded copy (strictly, it goes through a pointer to a
  destroyed object), so the stored queue never changes. These functions
  model that reading; module `OrderBook` models the intended in-place write,
  which the rest of the model uses.
 */
module AsWritten {
  import opened OrderBook
  import opened OrderBookProperties

  /** `updateOrder` when the write goes to a copy: the code is reported, the state is not touched. */
  function UpdateThroughCopy(b: Book, orderId: U64, newStatus: string): (res: (ReturnCode, Book))
    ensures res.0 == OrderNotFound <==> NoMatch(b.queue, orderId)
    ensures res.0 == StatusUpdated <==> !NoMatch(b.queue, orderId)
    ensures res.1 == b
  {
    match FindIndex(b.queue, orderId)
    case None => (OrderNotFound, b)
    case Some(_) => (StatusUpdated, b)
  }

  /**
    `refundOrder` when the status write goes to a copy: the transfer still
    reads the found order's user and amount, but the stored status stays.
   */
  function RefundThroughCopy(b: Book, orderId: U64): (res: (ReturnCode, Book))
    ensures res.0 == OrderNotFound <==> NoMatch(b.queue, orderId)
    ensures res.0 == OrderNotFound ==> res.1 == b
    ensures res.1.queue == b.queue && res.1.counter == b.counter
    ensures forall i :: FirstMatch(b.queue, orderId, i) ==>
              res.0 == RefundProcessed && res.1.transfers == b.transfers + RefundTransfers(b.queue[i])
  {
    match FindIndex(b.queue, orderId)
    case None => (OrderNotFound, b)
    case Some(i) => (RefundProcessed, b.(transfers := b.transfers + RefundTransfers(b.queue[i])))
  }

  /**
    The discrepancy for `updateOrder`: after pushing an order, updating it to
    any status other than "Pending" reports success, yet the stored order is
    still "Pending"; the intended `Update` stores the new status.
   */
  lemma UpdateThroughCopyIsLost(b: Book, input: Request, newStatus: string)
    requires Valid(b) && b.counter < U64_MAX && newStatus != PENDING
    ensures var b1 := Push(b, input);
      var (code, b2) := UpdateThroughCopy(b1, b1.counter, newStatus);
      code == StatusUpdated && b2.queue[|b.queue|].status == PENDING &&
      Update(b1, b1.counter, newStatus).1.queue[|b.queue|].status == newStatus
  {
    PushedOrderIsFirstMatch(b, input);
  }

  /**
    The discrepancy for `refundOrder`: refunding a just-pushed order reports
    success and pays, yet the stored order is still "Pending"; the intended
    `Refund` stores "Refunded".
   */
  lemma RefundThroughCopyIsLost(b: Book, input: Request)
    requires Valid(b) && b.counter < U64_MAX
    ensures var b1 := Push(b, input);
      var (code, b2) := RefundThroughCopy(b1, b1.counter);
      code == RefundProcessed && b2.queue[|b.queue|].status == PENDING &&
      b2.transfers == b.transfers + RefundTransfers(b1.queue[|b.queue|]) &&
      Refund(b1, b1.counter).1.queue[|b.queue|].status == REFUNDED
  {
    PushedOrderIsFirstMatch(b, input);
  }
}
