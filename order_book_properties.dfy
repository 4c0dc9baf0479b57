/**
  Properties of the order contract that relate several calls: FIFO order
  over any number of pushes and pulls, freshness of ids over any run of
  operations, lookups reaching a just-pushed order, and the absence of a
  status guard on refunds.
 */
module OrderBookProperties {
  import opened OrderBook

  /** Order `o` was created by `pushOrder` from `input`. */
  ghost predicate MadeFrom(o: Order, input: Request) {
    o.user == input.user && o.amount == input.amount &&
    o.orderType == input.orderType && o.status == PENDING
  }

  /** Ids along `q` are pairwise distinct. */
  ghost predicate DistinctIds(q: seq<Order>) {
    forall i, j :: 0 <= i < |q| && 0 <= j < |q| && i != j ==> q[i].orderId != q[j].orderId
  }

  /** One call of a public procedure of the contract. */
  datatype Op = PushOp(input: Request) | PullOp | UpdateOp(orderId: U64, newStatus: string) | RefundOp(orderId: U64)

  /** The state after one call. */
  function Step(b: Book, op: Op): Book {
    match op
    case PushOp(input) => Push(b, input)
    case PullOp => Pull(b).1
    case UpdateOp(orderId, newStatus) => Update(b, orderId, newStatus).1
    case RefundOp(orderId) => Refund(b, orderId).1
  }

  /** The state after a sequence of calls, first call first. */
  function Run(b: Book, ops: seq<Op>): Book
    decreases |ops|
  {
    if ops == [] then b else Run(Step(b, ops[0]), ops[1..])
  }

  /** The number of `pushOrder` calls in `ops`. */
  function Pushes(ops: seq<Op>): (n: nat)
    ensures n <= |ops|
  {
    if ops == [] then 0 else (if ops[0].PushOp? then 1 else 0) + Pushes(ops[1..])
  }

  /** `pushOrder` called once per input, in order. */
  function PushAll(b: Book, inputs: seq<Request>): Book
    decreases |inputs|
  {
    if inputs == [] then b else PushAll(Push(b, inputs[0]), inputs[1..])
  }

  /** `pullOrder` called until it reports the empty queue: the orders it returned, and the final state. */
  function Drain(b: Book): (seq<Order>, Book)
    decreases |b.queue|
  {
    match Pull(b)
    case (EmptyQueue, b') => ([], b')
    case (Pulled(o), b') =>
      var rest := Drain(b');
      ([o] + rest.0, rest.1)
  }

  /** Under the id invariant no two queued orders share an id. */
  lemma ValidIdsDistinct(b: Book)
    requires Valid(b)
    ensures DistinctIds(b.queue)
  {
    forall i, j | 0 <= i < |b.queue| && 0 <= j < |b.queue| && i != j
      ensures b.queue[i].orderId != b.queue[j].orderId
    {
      if i < j {
        assert b.queue[i].orderId < b.queue[j].orderId;
      } else {
        assert b.queue[j].orderId < b.queue[i].orderId;
      }
    }
  }

  /**
    While the counter has not reached 2^64 - 1, a push keeps the id
    invariant and the new id is larger than, so different from, every id
    already queued.
   */
  lemma PushKeepsValid(b: Book, input: Request)
    requires Valid(b) && b.counter < U64_MAX
    ensures Valid(Push(b, input))
    ensures Push(b, input).counter == b.counter + 1
    ensures forall i :: 0 <= i < |b.queue| ==> b.queue[i].orderId < Push(b, input).counter
  {
    var b' := Push(b, input);
    forall i | 0 <= i < |b'.queue|
      ensures 1 <= b'.queue[i].orderId <= b'.counter
    {
      if i < |b.queue| {
        assert b'.queue[i] == b'.queue[..|b.queue|][i];
      }
    }
    forall i, j | 0 <= i < j < |b'.queue|
      ensures b'.queue[i].orderId < b'.queue[j].orderId
    {
      assert b'.queue[i] == b.queue[i] by {
        assert b'.queue[i] == b'.queue[..|b.queue|][i];
      }
      if j < |b.queue| {
        assert b'.queue[j] == b'.queue[..|b.queue|][j];
      }
    }
  }

  /** Changing one status leaves every id where it was. */
  lemma StatusChangeKeepsValid(b: Book, b': Book, i: int, s: string)
    requires Valid(b) && StatusChangedAt(b.queue, b'.queue, i, s) && b'.counter == b.counter
    ensures Valid(b')
  {
    assert forall j :: 0 <= j < |b.queue| ==> b'.queue[j].orderId == b.queue[j].orderId;
  }

  /** Every operation keeps the id invariant, a push only while the counter can still grow. */
  lemma StepKeepsValid(b: Book, op: Op)
    requires Valid(b) && (op.PushOp? ==> b.counter < U64_MAX)
    ensures Valid(Step(b, op))
    ensures Step(b, op).counter == b.counter + (if op.PushOp? then 1 else 0)
  {
    match op
    case PushOp(input) =>
      PushKeepsValid(b, input);
    case PullOp =>
    case UpdateOp(orderId, newStatus) =>
      var found := FindIndex(b.queue, orderId);
      if found.Some? {
        StatusChangeKeepsValid(b, Update(b, orderId, newStatus).1, found.value, newStatus);
      }
    case RefundOp(orderId) =>
      var found := FindIndex(b.queue, orderId);
      if found.Some? {
        StatusChangeKeepsValid(b, Refund(b, orderId).1, found.value, REFUNDED);
      }
  }

  /**
    Any run of calls, started from a valid state (such as a fresh contract),
    whose pushes do not take the counter past 2^64 - 1, ends in a valid state:
    ids in the queue are distinct, strictly increasing and never above the
    counter, which has grown by exactly the number of pushes.
   */
  lemma {:induction false} RunKeepsValid(b: Book, ops: seq<Op>)
    requires Valid(b) && b.counter + Pushes(ops) <= U64_MAX
    ensures Valid(Run(b, ops)) && DistinctIds(Run(b, ops).queue)
    ensures Run(b, ops).counter == b.counter + Pushes(ops)
    decreases |ops|
  {
    if ops == [] {
      ValidIdsDistinct(b);
    } else {
      StepKeepsValid(b, ops[0]);
      RunKeepsValid(Step(b, ops[0]), ops[1..]);
    }
  }

  /** Pushing a list of inputs appends one order per input, in input order, with consecutive ids. */
  lemma {:induction false} PushAllAppends(b: Book, inputs: seq<Request>)
    ensures var b' := PushAll(b, inputs);
      |b'.queue| == |b.queue| + |inputs| && b'.queue[..|b.queue|] == b.queue &&
      b'.transfers == b.transfers &&
      (forall k :: 0 <= k < |inputs| ==> MadeFrom(b'.queue[|b.queue| + k], inputs[k])) &&
      (b.counter + |inputs| <= U64_MAX ==>
         b'.counter == b.counter + |inputs| &&
         forall j :: |b.queue| <= j < |b'.queue| ==> b'.queue[j].orderId == b.counter + (j - |b.queue|) + 1)
    decreases |inputs|
  {
    if inputs != [] {
      var b1 := Push(b, inputs[0]);
      var b' := PushAll(b1, inputs[1..]);
      PushAllAppends(b1, inputs[1..]);
      assert b'.queue[..|b.queue|] == b.queue by {
        assert b'.queue[..|b.queue|] == b'.queue[..|b1.queue|][..|b.queue|];
      }
      assert b'.queue[|b.queue|] == b1.queue[|b.queue|] by {
        assert b'.queue[|b.queue|] == b'.queue[..|b1.queue|][|b.queue|];
      }
      forall k | 1 <= k < |inputs|
        ensures b'.queue[|b.queue| + k] == b'.queue[|b1.queue| + (k - 1)]
        ensures inputs[k] == inputs[1..][k - 1]
      {
      }
    }
  }

  /** Pulling until empty returns exactly the queue, head first, and leaves everything else as it was. */
  lemma {:induction false} DrainReturnsQueue(b: Book)
    ensures Drain(b).0 == b.queue
    ensures Drain(b).1 == b.(queue := [])
    decreases |b.queue|
  {
    if b.queue != [] {
      DrainReturnsQueue(Pull(b).1);
    }
  }

  /**
    FIFO: after pushing `inputs` onto a queue, pulling until empty returns
    the orders that were already queued, then one order per input in the
    order the inputs were pushed, with consecutive ids if the counter does
    not wrap.
   */
  lemma Fifo(b: Book, inputs: seq<Request>)
    ensures var out := Drain(PushAll(b, inputs)).0;
      |out| == |b.queue| + |inputs| && out[..|b.queue|] == b.queue &&
      (forall k :: 0 <= k < |inputs| ==> MadeFrom(out[|b.queue| + k], inputs[k])) &&
      (b.counter + |inputs| <= U64_MAX ==>
         forall j :: |b.queue| <= j < |out| ==> out[j].orderId == b.counter + (j - |b.queue|) + 1)
  {
    PushAllAppends(b, inputs);
    DrainReturnsQueue(PushAll(b, inputs));
  }

  /** A push does not change what the next pull of a non-empty queue returns: the two commute. */
  lemma PushPullCommute(b: Book, input: Request)
    requires b.queue != []
    ensures Pull(Push(b, input)).0 == Pull(b).0 == Pulled(b.queue[0])
    ensures Pull(Push(b, input)).1 == Push(Pull(b).1, input)
  {
    var o := Order(NextId(b.counter), input.user, input.amount, input.orderType, PENDING);
    assert (b.queue + [o])[1..] == b.queue[1..] + [o];
  }

  /** An order just pushed onto a valid queue is the first (and only) match for its id. */
  lemma PushedOrderIsFirstMatch(b: Book, input: Request)
    requires Valid(b) && b.counter < U64_MAX
    ensures FirstMatch(Push(b, input).queue, Push(b, input).counter, |b.queue|)
    ensures FindIndex(Push(b, input).queue, Push(b, input).counter) == Some(|b.queue|)
  {
    var b' := Push(b, input);
    PushKeepsValid(b, input);
    forall j | 0 <= j < |b.queue|
      ensures b'.queue[j].orderId != b'.counter
    {
      assert b'.queue[j] == b'.queue[..|b.queue|][j];
    }
  }

  /**
    `updateOrder` on the id of the order just pushed changes the status of
    that order in the stored queue, as the contract's tests expect, and
    nothing else.
   */
  lemma UpdateReachesPushedOrder(b: Book, input: Request, newStatus: string)
    requires Valid(b) && b.counter < U64_MAX
    ensures var b1 := Push(b, input);
      Update(b1, b1.counter, newStatus) ==
        (StatusUpdated, b1.(queue := b.queue + [Order(b1.counter, input.user, input.amount, input.orderType, newStatus)]))
  {
    var b1 := Push(b, input);
    PushedOrderIsFirstMatch(b, input);
    var b2 := Update(b1, b1.counter, newStatus).1;
    assert b2.queue == b.queue + [Order(b1.counter, input.user, input.amount, input.orderType, newStatus)] by {
      assert b1.queue == b.queue + [b1.queue[|b.queue|]] by {
        assert b1.queue == b1.queue[..|b.queue|] + [b1.queue[|b.queue|]];
      }
    }
  }

  /**
    `refundOrder` on the id of the order just pushed marks that order
    "Refunded" in the stored queue and pays its amount to its user unless
    the amount is 0.
   */
  lemma RefundReachesPushedOrder(b: Book, input: Request)
    requires Valid(b) && b.counter < U64_MAX
    ensures var b1 := Push(b, input);
      Refund(b1, b1.counter) ==
        (RefundProcessed,
         Book(b.queue + [Order(b1.counter, input.user, input.amount, input.orderType, REFUNDED)],
              b1.counter,
              b.transfers + (if input.amount > 0 then [Transfer(input.user, input.amount)] else [])))
  {
    var b1 := Push(b, input);
    PushedOrderIsFirstMatch(b, input);
    var b2 := Refund(b1, b1.counter).1;
    assert b2.queue == b.queue + [Order(b1.counter, input.user, input.amount, input.orderType, REFUNDED)] by {
      assert b1.queue == b.queue + [b1.queue[|b.queue|]] by {
        assert b1.queue == b1.queue[..|b.queue|] + [b1.queue[|b.queue|]];
      }
    }
  }

  /** Changing a status does not change which entry a lookup by id finds. */
  lemma StatusChangeKeepsFirstMatch(q: seq<Order>, q': seq<Order>, i: int, s: string, orderId: U64, k: int)
    requires StatusChangedAt(q, q', i, s) && FirstMatch(q, orderId, k)
    ensures FirstMatch(q', orderId, k)
  {
    assert forall j :: 0 <= j < |q| ==> q'[j].orderId == q[j].orderId;
  }

  /**
    `refundOrder` has no status guard: refunding the same order twice
    succeeds twice and pays the order's transfer twice, while the second call
    leaves the queue as the first one left it.
   */
  lemma RefundTwicePaysTwice(b: Book, orderId: U64, i: int)
    requires FirstMatch(b.queue, orderId, i)
    ensures var (c1, b1) := Refund(b, orderId);
      var (c2, b2) := Refund(b1, orderId);
      c1 == RefundProcessed && c2 == RefundProcessed &&
      b1.queue[i].status == REFUNDED && b2.queue == b1.queue &&
      b2.transfers == b.transfers + RefundTransfers(b.queue[i]) + RefundTransfers(b.queue[i])
  {
    var b1 := Refund(b, orderId).1;
    StatusChangeKeepsFirstMatch(b.queue, b1.queue, i, REFUNDED, orderId, i);
    var b2 := Refund(b1, orderId).1;
    assert RefundTransfers(b1.queue[i]) == RefundTransfers(b.queue[i]);
    assert b2.queue == b1.queue by {
      assert forall j :: 0 <= j < |b2.queue| ==> b2.queue[j] == b1.queue[j];
    }
  }
}
