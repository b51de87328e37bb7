/**
 The messages of the validator pipeline and the queue they travel on.
 An event is known by its identity; the payload plays no part in the protocol.
 */
module Types {
  import opened Wrappers

  type EventId = nat
  type TxHash = string

  datatype EventTask = EventTask(
    eventType: string,
    event: EventId,
    nonce: Option<nat>,
    retries: Option<nat>,
    timestamp: Option<nat>)

  predicate IsRetryTask(task: EventTask) {
    task.retries.Some? && task.retries.value > 0
  }

  datatype ReceiptTask = ReceiptTask(
    eventTask: EventTask,
    nonce: nat,
    timestamp: nat,
    transactionHash: TxHash,
    sentBlock: nat,
    retries: Option<nat>)

  /** How the broker answered a publish: stored, refused, or stored with the confirmation lost. */
  datatype Delivery<+E> = Delivered | Rejected(error: E) | DeliveredThenRejected(error: E)

  /** What a publish leaves on the queue. */
  function Arrived<T, E>(x: T, d: Delivery<E>): seq<T> {
    if d.Rejected? then [] else [x]
  }

  class Queue<T> {
    var items: seq<T>

    constructor ()
      ensures items == []
    {
      items := [];
    }

    method Publish<E>(x: T, d: Delivery<E>) returns (error: Option<E>)
      modifies this
      ensures items == old(items) + Arrived(x, d)
      ensures error == if d.Delivered? then None else Some(d.error)
    {
      if d.Rejected? {
        return Some(d.error);
      }
      items := items + [x];
      error := if d.Delivered? then None else Some(d.error);
    }
  }
}
