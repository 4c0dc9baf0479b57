/**
  Values and pure transition functions of the Qubic order contract.

  The contract keeps a FIFO queue of orders, a 64-bit order counter and (here)
  a log of the refund transfers it asked the host ledger to perform. Each
  public procedure of the contract is described by one function from the old
  `Book` (the whole contract state) to its return value and the new `Book`;
  the class in module `Contract` is proved to implement these functions.
 */
module OrderBook {

  /** Number of values of a C++ `uint64_t`. */
  const U64_LIMIT: nat := 0x1_0000_0000_0000_0000
  const U64_MAX: nat := 0xFFFF_FFFF_FFFF_FFFF

  /** The values of a C++ `uint64_t`. */
  type U64 = x: int | 0 <= x < 0x1_0000_0000_0000_0000

  /** The two status strings the contract itself writes. */
  const PENDING: string := "Pending"
  const REFUNDED: string := "Refunded"

  datatype Option<T> = None | Some(value: T)

  /** One queued order. `status` is free text: `updateOrder` stores any string. */
  datatype Order = Order(orderId: U64, user: string, amount: U64, orderType: string, status: string)

  /** The input of `pushOrder`. */
  datatype Request = Request(user: string, amount: U64, orderType: string)

  /** One call of the host's transfer primitive: `amount` units to `destination`. */
  datatype Transfer = Transfer(destination: string, amount: U64)

  /**
    The return codes of `updateOrder` and `refundOrder`, which the contract
    writes as the strings "ORDER_NOT_FOUND", "STATUS_UPDATED" and
    "REFUND_PROCESSED".
   */
  datatype ReturnCode = OrderNotFound | StatusUpdated | RefundProcessed

  /** The output of `pullOrder`: the "EMPTY_QUEUE" code, or the head's fields. */
  datatype PullResult = EmptyQueue | Pulled(order: Order)

  /** The whole contract state: queue (head first), counter, transfers made so far. */
  datatype Book = Book(queue: seq<Order>, counter: U64, transfers: seq<Transfer>)

  /** The state of a freshly constructed contract. */
  const INITIAL: Book := Book([], 0, [])

  /**
    The invariant that ids are handed out in increasing order: along the queue
    the ids strictly increase, and every id lies between 1 and the counter.
   */
  ghost predicate Valid(b: Book) {
    (forall i, j :: 0 <= i < j < |b.queue| ==> b.queue[i].orderId < b.queue[j].orderId) &&
    (forall i :: 0 <= i < |b.queue| ==> 1 <= b.queue[i].orderId <= b.counter)
  }

  /** No entry of `q` carries `orderId`. */
  ghost predicate NoMatch(q: seq<Order>, orderId: U64) {
    forall j :: 0 <= j < |q| ==> q[j].orderId != orderId
  }

  /** `i` is the position of the first entry of `q`, in queue order, carrying `orderId`. */
  ghost predicate FirstMatch(q: seq<Order>, orderId: U64, i: int) {
    0 <= i < |q| && q[i].orderId == orderId &&
    forall j :: 0 <= j < i ==> q[j].orderId != orderId
  }

  /** `q'` is `q` with the status of entry `i` (and nothing else) set to `s`. */
  ghost predicate StatusChangedAt(q: seq<Order>, q': seq<Order>, i: int, s: string) {
    |q'| == |q| && 0 <= i < |q| &&
    q'[i] == q[i].(status := s) &&
    forall j :: 0 <= j < |q| && j != i ==> q'[j] == q[j]
  }

  /** The pre-increment `++orderCounter` on a `uint64_t`, which wraps to 0. */
  function NextId(counter: U64): (id: U64)
    ensures counter < U64_MAX ==> id == counter + 1 && id > counter
    ensures counter == U64_MAX ==> id == 0
  {
    (counter + 1) % U64_LIMIT
  }

  /**
    Position of the first order of `q` whose id is `orderId`, as `findOrderById`
    scans the queue from its head.
   */
  function FindIndex(q: seq<Order>, orderId: U64): (r: Option<nat>)
    ensures r.Some? ==> FirstMatch(q, orderId, r.value)
    ensures r.None? <==> NoMatch(q, orderId)
  {
    if q == [] then None
    else if q[0].orderId == orderId then Some(0)
    else match FindIndex(q[1..], orderId)
      case None => None
      case Some(k) => Some(k + 1)
  }

  /** The transfers `refundOrder` performs for order `o`: one, unless its amount is 0. */
  function RefundTransfers(o: Order): (ts: seq<Transfer>)
    ensures o.amount > 0 <==> ts == [Transfer(o.user, o.amount)]
    ensures o.amount == 0 <==> ts == []
  {
    if o.amount > 0 then [Transfer(o.user, o.amount)] else []
  }

  /** `pushOrder`: a new "Pending" order with the next id goes to the tail. */
  function Push(b: Book, input: Request): (b': Book)
    ensures |b'.queue| == |b.queue| + 1 && b'.queue[..|b.queue|] == b.queue
    ensures b'.queue[|b.queue|] == Order(b'.counter, input.user, input.amount, input.orderType, PENDING)
    ensures b'.counter == NextId(b.counter)
    ensures b'.transfers == b.transfers
  {
    var id := NextId(b.counter);
    Book(b.queue + [Order(id, input.user, input.amount, input.orderType, PENDING)], id, b.transfers)
  }

  /** `pullOrder`: remove and return the head, or report the empty queue. */
  function Pull(b: Book): (res: (PullResult, Book))
    ensures res.0 == EmptyQueue <==> b.queue == []
    ensures b.queue == [] ==> res.1 == b
    ensures b.queue != [] ==>
              res.0 == Pulled(b.queue[0]) && res.1.queue == b.queue[1..] &&
              res.1.counter == b.counter && res.1.transfers == b.transfers
  {
    if b.queue == [] then (EmptyQueue, b)
    else (Pulled(b.queue[0]), b.(queue := b.queue[1..]))
  }

  /**
    `updateOrder`: overwrite the status of the first order carrying `orderId`.
    Any string is accepted; there is no guard on the current status.
   */
  function Update(b: Book, orderId: U64, newStatus: string): (res: (ReturnCode, Book))
    ensures res.0 == OrderNotFound <==> NoMatch(b.queue, orderId)
    ensures res.0 == OrderNotFound ==> res.1 == b
    ensures forall i :: FirstMatch(b.queue, orderId, i) ==>
              res.0 == StatusUpdated &&
              StatusChangedAt(b.queue, res.1.queue, i, newStatus) &&
              res.1.counter == b.counter && res.1.transfers == b.transfers
  {
    match FindIndex(b.queue, orderId)
    case None => (OrderNotFound, b)
    case Some(i) => (StatusUpdated, b.(queue := b.queue[i := b.queue[i].(status := newStatus)]))
  }

  /**
    `refundOrder`: mark the first order carrying `orderId` "Refunded" and pay
    its amount back to its user. The current status is not checked, so a
    second refund of the same order pays again.
   */
  function Refund(b: Book, orderId: U64): (res: (ReturnCode, Book))
    ensures res.0 == OrderNotFound <==> NoMatch(b.queue, orderId)
    ensures res.0 == OrderNotFound ==> res.1 == b
    ensures forall i :: FirstMatch(b.queue, orderId, i) ==>
              res.0 == RefundProcessed &&
              StatusChangedAt(b.queue, res.1.queue, i, REFUNDED) &&
              res.1.counter == b.counter &&
              res.1.transfers == b.transfers + RefundTransfers(b.queue[i])
  {
    match FindIndex(b.queue, orderId)
    case None => (OrderNotFound, b)
    case Some(i) =>
      var refunded := b.queue[i].(status := REFUNDED);
      var paid := if refunded.amount > 0 then b.transfers + [Transfer(refunded.user, refunded.amount)] else b.transfers;
      (RefundProcessed, Book(b.queue[i := refunded], b.counter, paid))
  }
}
