/**
  The `QubicOrderContract` class: a FIFO queue of orders and a 64-bit order
  counter, updated in place by the contract's four public procedures.

  Each procedure is a method whose postcondition ties the new state and the
  return value to the matching function of module `OrderBook`; the
  properties of those functions are proved there and in `OrderBookProperties`.
 */
module Contract {
  import opened OrderBook

  class QubicOrderContract {
    var orderQueue: seq<Order>
    var orderCounter: U64
    /** The calls made to the host's transfer primitive, oldest first. */
    var transfers: seq<Transfer>

    /** The whole state as a value. */
    function View(): Book
      reads this
    {
      Book(orderQueue, orderCounter, transfers)
    }

    constructor ()
      ensures View() == INITIAL && Valid(View())
    {
      orderQueue := [];
      orderCounter := 0;
      transfers := [];
    }

    /** `pushOrder`: append a "Pending" order with a fresh id. */
    method PushOrder(input: Request)
      modifies this
      ensures View() == Push(old(View()), input)
      ensures orderCounter == NextId(old(orderCounter))
      ensures orderQueue == old(orderQueue) + [Order(orderCounter, input.user, input.amount, input.orderType, PENDING)]
      ensures transfers == old(transfers)
      ensures old(Valid(View())) && old(orderCounter) < U64_MAX ==>
                Valid(View()) && forall o :: o in old(orderQueue) ==> o.orderId != orderCounter
    {
      orderCounter := NextId(orderCounter);
      var newOrder := Order(orderCounter, input.user, input.amount, input.orderType, PENDING);
      orderQueue := orderQueue + [newOrder];
    }

    /** `pullOrder`: pop the head and return its fields, or report an empty queue. */
    method PullOrder() returns (output: PullResult)
      modifies this
      ensures (output, View()) == Pull(old(View()))
      ensures old(orderQueue) == [] ==> output == EmptyQueue && unchanged(this)
      ensures old(orderQueue) != [] ==>
                output == Pulled(old(orderQueue[0])) && orderQueue == old(orderQueue[1..]) &&
                orderCounter == old(orderCounter) && transfers == old(transfers)
      ensures old(Valid(View())) ==> Valid(View())
    {
      if orderQueue == [] {
        return EmptyQueue;
      }
      var oldestOrder := orderQueue[0];
      orderQueue := orderQueue[1..];
      output := Pulled(oldestOrder);
    }

    /**
      `findOrderById`: the position of the first queued order carrying
      `orderId`, scanning from the head as the source's loop pops a working
      copy of the queue.
     */
    method FindOrderById(orderId: U64) returns (found: Option<nat>)
      ensures found == FindIndex(orderQueue, orderId)
    {
      var tempQueue := orderQueue;
      var i := 0;
      while tempQueue != []
        invariant 0 <= i <= |orderQueue| && tempQueue == orderQueue[i..]
        invariant forall j :: 0 <= j < i ==> orderQueue[j].orderId != orderId
        decreases |tempQueue|
      {
        if tempQueue[0].orderId == orderId {
          return Some(i);
        }
        tempQueue := tempQueue[1..];
        i := i + 1;
      }
      return None;
    }

    /**
      `updateOrder`: set the status of the found order to `newStatus`.

      The C++ helper returns a pointer into a local copy of the queue, so its
      write never reaches the stored queue (and the pointer dangles). The
      contract's tests and the helper's own comment intend the stored entry to
      change; this method models that intended in-place update.
     */
    method UpdateOrder(orderId: U64, newStatus: string) returns (returnCode: ReturnCode)
      modifies this
      ensures (returnCode, View()) == Update(old(View()), orderId, newStatus)
      ensures returnCode == OrderNotFound ==> unchanged(this)
      ensures |orderQueue| == |old(orderQueue)| && orderCounter == old(orderCounter) && transfers == old(transfers)
      ensures old(Valid(View())) ==> Valid(View())
    {
      var found := FindOrderById(orderId);
      if found.None? {
        return OrderNotFound;
      }
      var i := found.value;
      orderQueue := orderQueue[i := orderQueue[i].(status := newStatus)];
      returnCode := StatusUpdated;
    }

    /**
      `refundOrder`: mark the found order "Refunded" and, if its amount is
      positive, transfer the amount back to its user. As in `UpdateOrder`,
      the status is written to the stored entry, which is what the source
      intends. No status is checked, so a repeated refund pays again.
     */
    method RefundOrder(orderId: U64) returns (returnCode: ReturnCode)
      modifies this
      ensures (returnCode, View()) == Refund(old(View()), orderId)
      ensures returnCode == OrderNotFound ==> unchanged(this)
      ensures |orderQueue| == |old(orderQueue)| && orderCounter == old(orderCounter)
      ensures old(Valid(View())) ==> Valid(View())
    {
      var found := FindOrderById(orderId);
      if found.None? {
        return OrderNotFound;
      }
      var i := found.value;
      orderQueue := orderQueue[i := orderQueue[i].(status := REFUNDED)];
      if orderQueue[i].amount > 0 {
        transfers := transfers + [Transfer(orderQueue[i].user, orderQueue[i].amount)];
      }
      returnCode := RefundProcessed;
    }
  }
}
