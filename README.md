# Qubic order contract — a Dafny model

This project models the order book of the Qubic order contract
(`contracts/QubicOrderContract.h`). The contract keeps a FIFO queue of orders
and a 64-bit order counter. It has four public procedures:

- `pushOrder` creates a "Pending" order with the next id and queues it at the tail.
- `pullOrder` removes the head and returns its fields, or returns `EMPTY_QUEUE`.
- `updateOrder` overwrites the status of the order with a given id, or returns `ORDER_NOT_FOUND`.
- `refundOrder` marks an order "Refunded" and pays its amount back to its user through the host's transfer primitive.

The last two find the order with the linear search `findOrderById`.

Files:

- `order_book.dfy` (module `OrderBook`) holds the value types and a pure function per procedure: `Push`, `Pull`, `Update`, `Refund` and the lookup `FindIndex`. A `Book` value is the whole state: the queue, the counter and the log of transfers made. It also defines the id invariant `Valid`.
- `qubic_order_contract.dfy` (module `Contract`) holds the class `QubicOrderContract`. It has the fields `orderQueue: seq<Order>`, `orderCounter: U64` and `transfers: seq<Transfer>`. Its methods update these fields in place. Each method is proved to produce exactly the return value and state that the matching `OrderBook` function gives. `FindOrderById` is the source's scanning loop, proved equal to `FindIndex`.
- `order_book_properties.dfy` (module `OrderBookProperties`) holds the properties that span several calls. These are FIFO order, the id invariant over any run of calls, and lookups reaching a just-pushed order. It also shows that refunds have no status guard.
- `as_written.dfy` (module `AsWritten`) models how `updateOrder` and `refundOrder` behave as literally written, with the write going to a copy of the queue. See "Findings".

Modelling decisions:

- Both the order id and the amount are `uint64_t` in the source, so both are `U64` here. `++orderCounter` wraps to 0 after 2^64 - 1, and `NextId` writes that wrap out. Id freshness is therefore proved only while the counter is below 2^64 - 1.
- Statuses stay free-form strings, as in the code. `updateOrder` accepts any string and never looks at the current status. `refundOrder` also ignores the current status, so a second refund pays a second time. `contracts/QubicOrderContract.h` has no closed status enumeration, no guarded transitions, no locked-token accounting and no manager permissions, so the model has none of them.
- The lookup used by `updateOrder` and `refundOrder` is modelled as the intended in-place write to the first matching entry of the stored queue. The contract's tests expect this (`test/QubicOrderContractTest.cpp:64`, `:83`), and so does the comment at `contracts/QubicOrderContract.h:102`. The literal behaviour is recorded under "Findings".

## Model

| member | source | states |
|---|---|---|
| OrderBook.NextId | contracts/QubicOrderContract.h:33 | the new id is the old counter plus one; after 2^64 - 1 the `uint64_t` counter wraps to 0 |
| OrderBook.FindIndex | contracts/QubicOrderContract.h:97-107 | returns the position of the first entry, in queue order, whose id matches; returns none exactly when no entry matches |
| OrderBook.RefundTransfers | contracts/QubicOrderContract.h:86-88 | a refund makes one transfer of `(user, amount)` when the amount is positive and none when it is 0 |
| OrderBook.Push | contracts/QubicOrderContract.h:31-42 | appends exactly one order at the tail, with the old queue as an unchanged prefix; the counter becomes `NextId` of the old one (plus one, or 0 after 2^64 - 1) and the new order has that id, the input's user, amount and type, and status "Pending"; transfers are unchanged |
| OrderBook.Pull | contracts/QubicOrderContract.h:45-59 | on an empty queue returns EMPTY_QUEUE and changes nothing; otherwise returns the head order and leaves exactly the old tail, with counter and transfers unchanged |
| OrderBook.Update | contracts/QubicOrderContract.h:62-73 | returns ORDER_NOT_FOUND exactly when no entry has the id, and then changes nothing; otherwise returns STATUS_UPDATED and sets only the first match's status to any given string, leaving other fields, other entries, length, counter and transfers unchanged |
| OrderBook.Refund | contracts/QubicOrderContract.h:76-92 | returns ORDER_NOT_FOUND exactly when no entry has the id, and then changes nothing; otherwise returns REFUND_PROCESSED, sets only the first match's status to "Refunded" and logs its transfer when its amount is positive |
| Contract.QubicOrderContract.constructor | contracts/QubicOrderContract.h:23-24 | a new contract has an empty queue, counter 0 and no transfers |
| Contract.QubicOrderContract.PushOrder | contracts/QubicOrderContract.h:31-42 | increments the counter in place and appends the new "Pending" order with that id; the id invariant is kept and the new id differs from every queued id while the counter is below 2^64 - 1 |
| Contract.QubicOrderContract.PullOrder | contracts/QubicOrderContract.h:45-59 | pops the head in place and returns it; on an empty queue returns EMPTY_QUEUE with the object unchanged |
| Contract.QubicOrderContract.FindOrderById | contracts/QubicOrderContract.h:97-107 | the scanning loop returns the position that `FindIndex` specifies: the first matching entry, or none |
| Contract.QubicOrderContract.UpdateOrder | contracts/QubicOrderContract.h:62-73 | writes the new status into the stored first match, giving exactly `Update`'s code and state; on ORDER_NOT_FOUND the object is unchanged |
| Contract.QubicOrderContract.RefundOrder | contracts/QubicOrderContract.h:76-92 | writes "Refunded" into the stored first match and logs the transfer, giving exactly `Refund`'s code and state; on ORDER_NOT_FOUND the object is unchanged |
| OrderBookProperties.ValidIdsDistinct | contracts/QubicOrderContract.h:24-33 | under the id invariant no two queued orders share an id |
| OrderBookProperties.PushKeepsValid | contracts/QubicOrderContract.h:31-39 | while the counter is below 2^64 - 1, a push keeps ids strictly increasing along the queue, and the new id exceeds every queued id |
| OrderBookProperties.StatusChangeKeepsValid | contracts/QubicOrderContract.h:69 | overwriting one status keeps the id invariant |
| OrderBookProperties.StepKeepsValid | contracts/QubicOrderContract.h:31-92 | each of the four procedures keeps the id invariant (a push only while the counter can grow); only a push advances the counter, by one |
| OrderBookProperties.RunKeepsValid | contracts/QubicOrderContract.h:23-24 | any run of calls whose pushes do not take the counter past 2^64 - 1 keeps the queued ids distinct, strictly increasing and at most the counter, and advances the counter by exactly the number of pushes |
| OrderBookProperties.PushAllAppends | contracts/QubicOrderContract.h:31-42 | pushing a list of inputs appends one order per input, in input order, with consecutive ids when the counter does not wrap |
| OrderBookProperties.DrainReturnsQueue | contracts/QubicOrderContract.h:45-59 | pulling until EMPTY_QUEUE returns exactly the queue, head first, and changes nothing else |
| OrderBookProperties.Fifo | contracts/QubicOrderContract.h:23-59 | orders come out in the order they were pushed: first the already queued ones, then one per pushed input in push order, with consecutive ids |
| OrderBookProperties.PushPullCommute | contracts/QubicOrderContract.h:39-52 | on a non-empty queue a push does not change what the next pull returns |
| OrderBookProperties.PushedOrderIsFirstMatch | contracts/QubicOrderContract.h:97-106 | the lookup of a just-pushed id finds exactly the new tail entry |
| OrderBookProperties.UpdateReachesPushedOrder | contracts/QubicOrderContract.h:62-73 | updating a just-pushed order changes that order's status in the stored queue and nothing else |
| OrderBookProperties.RefundReachesPushedOrder | contracts/QubicOrderContract.h:76-92 | refunding a just-pushed order marks it "Refunded" in the stored queue and pays its user its amount unless that is 0 |
| OrderBookProperties.StatusChangeKeepsFirstMatch | contracts/QubicOrderContract.h:97-106 | changing a status does not change which entry a lookup by id finds |
| OrderBookProperties.RefundTwicePaysTwice | contracts/QubicOrderContract.h:76-92 | with no status guard, a second refund of the same order succeeds again, pays again and leaves the queue as the first refund left it |
| AsWritten.UpdateThroughCopy | contracts/QubicOrderContract.h:62-73 | as written, `updateOrder` reports STATUS_UPDATED exactly when the id is present but leaves the stored state unchanged |
| AsWritten.RefundThroughCopy | contracts/QubicOrderContract.h:76-92 | as written, `refundOrder` returns ORDER_NOT_FOUND with nothing changed when the id is absent; otherwise it pays the found order's transfer but leaves the stored queue unchanged |
| AsWritten.UpdateThroughCopyIsLost | contracts/QubicOrderContract.h:97-102 | as written, updating a just-pushed order reports success but the stored status stays "Pending" |
| AsWritten.RefundThroughCopyIsLost | contracts/QubicOrderContract.h:97-102 | as written, refunding a just-pushed order reports success and pays, but the stored status stays "Pending" |

## Left out

- The host transfer primitive `qpi.transfer` (`contracts/QubicOrderContract.h:87`) is host code that is not part of this model. Each call is recorded as one `Transfer` appended to the `transfers` log. No balances move.
- The `PUBLIC_PROCEDURE_WITH_LOCALS` macro, the `QPI` namespace and the `input`/`output` structures are host dispatch machinery. The procedures are methods with parameters and a returned result datatype.
- When `pullOrder` succeeds, the source does not set `output.returnCode`. The model returns `Pulled(order)` and has no code for that case.
- The "Emit some event" placeholders (`:41`, `:72`, `:91`) have no code, so there is nothing to model.
- The undefined behaviour of writing through the pointer that `findOrderById` returns into a destroyed copy is not modelled. `AsWritten` models the write as landing in a discarded copy.
- Contract.QubicOrderContract.PushOrder: id freshness and the id invariant are promised only while the counter is below 2^64 - 1. After that the `uint64_t` counter wraps to 0 and ids are reused, which the model also does.
- Locked-token accounting, admin/manager permission checks, fees, capacity limits, burn, cross-chain initiate/confirm and guarded status transitions are not modelled: none of them appears anywhere in `contracts/QubicOrderContract.h`.
- The test file `test/QubicOrderContractTest.cpp` is used only as evidence for the intended behaviour. Its calls do not match the procedures' signatures.

## Findings

| source | as written | input that shows it | evidently intended | confidence | as-written member | corrected member |
|---|---|---|---|---|---|---|
| contracts/QubicOrderContract.h:63-69, 97-102 | `findOrderById` returns a pointer into a local copy of the queue, so `updateOrder`'s status write never reaches `orderQueue` | push ("user3", 200, "lock") on a new contract, then update id 1 to "Completed": the stored front status stays "Pending" | the stored entry's status becomes "Completed" (`test/QubicOrderContractTest.cpp:64`) | not executed; the write goes through a pointer to a destroyed object, and this reads it as lost | AsWritten.UpdateThroughCopyIsLost | OrderBookProperties.UpdateReachesPushedOrder |
| contracts/QubicOrderContract.h:77-83, 97-102 | the same lookup makes `refundOrder`'s "Refunded" write land in the copy, while the transfer is still made | push ("user4", 300, "lock") on a new contract, then refund id 1: 300 is paid but the stored front status stays "Pending" | the stored entry's status becomes "Refunded" (`test/QubicOrderContractTest.cpp:83`) | not executed; the write goes through a pointer to a destroyed object, and this reads it as lost | AsWritten.RefundThroughCopyIsLost | OrderBookProperties.RefundReachesPushedOrder |
