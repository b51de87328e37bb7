/** The consumer of the sender queue: runs the sender and settles the message. */
module SenderMain {
  import opened Wrappers
  import opened Types
  import opened SenderSpec
  import Sender

  /** What becomes of the consumed message. */
  datatype Settlement = Acked | Requeued(task: EventTask) | Nacked

  /**
   Only the four results that leave nothing to send acknowledge the message, and only a block gas
   limit drops an event; whatever is requeued is the same event, without its nonce
   exactly when a retry's nonce was too low.
   */
  function Settle(task: EventTask, out: Outcome<SendResult>): (s: Settlement)
    ensures s.Nacked? <==> out == Returned(BlockGasLimitExceeded)
    ensures s.Acked? <==> (|| out == Returned(Success) || out == Returned(Skipped)
                           || out == Returned(DummyTx) || out == Returned(TxImported))
    ensures s.Requeued? ==> s.task == task || (s.task == task.(nonce := None) && IsRetryTask(task))
    ensures s.Requeued? && s.task != task ==> out == Returned(TooLow)
    ensures s.Requeued? && out == Returned(TooLow) && IsRetryTask(task) ==> s.task.nonce.None?
  {
    match out
    case Threw => Requeued(task)
    case Returned(Success) | Returned(Skipped) | Returned(DummyTx) | Returned(TxImported) => Acked
    case Returned(Failed) | Returned(Timeout) | Returned(InsufficientFund) => Requeued(task)
    case Returned(BlockGasLimitExceeded) => Nacked
    case Returned(TooLow) => Requeued(if IsRetryTask(task) then task.(nonce := None) else task)
  }

  function Republished(s: Settlement): seq<EventTask> {
    if s.Requeued? then [s.task] else []
  }

  /** The effects of the handler: those of the run, then the requeue, then the settlement. */
  function Effects(task: EventTask, c: Cached, rpc: SenderRpc): seq<Effect> {
    var fate := Settle(task, SenderSpec.Run(task, c, rpc).out);
    RunEffects(task, c, rpc) + Requeuing(fate) + [MessageSettled(fate.Acked?)]
  }

  function Requeuing(s: Settlement): seq<Effect> {
    if s.Requeued? then [TaskRequeued(s.task)] else []
  }

  /** The message object of the broker: settled at most once, and a nack never requeues it. */
  class Message {
    var acked: bool
    var nacked: bool

    constructor ()
      ensures !acked && !nacked
    {
      acked, nacked := false, false;
    }

    method Ack() returns (ghost effects: seq<Effect>)
      modifies this
      ensures acked && nacked == old(nacked) && effects == [MessageSettled(true)]
    {
      acked := true;
      effects := [MessageSettled(true)];
    }

    method Nack() returns (ghost effects: seq<Effect>)
      modifies this
      ensures nacked && acked == old(acked) && effects == [MessageSettled(false)]
    {
      nacked := true;
      effects := [MessageSettled(false)];
    }
  }

  method RunSender(sender: Sender.Sender, input: EventTask, rpc: SenderRpc, msg: Message,
                   retryQueue: Queue<EventTask>, receiptQueue: Queue<ReceiptTask>)
    returns (out: Outcome<SendResult>, ghost effects: seq<Effect>)
    requires !msg.acked && !msg.nacked
    modifies sender.cache, msg, retryQueue, receiptQueue
    ensures var r := SenderSpec.Run(input, old(sender.CachedNonce()), rpc);
            && out == r.out
            && sender.CachedNonce() == r.cached
            && receiptQueue.items == old(receiptQueue.items) + r.receipts
            && retryQueue.items == old(retryQueue.items) + Republished(Settle(input, r.out))
            && (msg.acked <==> Settle(input, r.out).Acked?)
    ensures msg.acked != msg.nacked
    ensures effects == Effects(input, old(sender.CachedNonce()), rpc)
  {
    var task := input;
    out, effects := sender.Run(task, rpc, receiptQueue);
    ghost var requeued, settled := [], [];
    if out.Threw? {
      requeued := Requeue(retryQueue, task);
      settled := msg.Nack();
      effects := effects + requeued + settled;
      return;
    }
    match out.value {
      case Success => settled := msg.Ack();
      case Skipped => settled := msg.Ack();
      case DummyTx => settled := msg.Ack();
      case TxImported => settled := msg.Ack();
      case Failed => requeued := Requeue(retryQueue, task); settled := msg.Nack();
      case Timeout => requeued := Requeue(retryQueue, task); settled := msg.Nack();
      case InsufficientFund => requeued := Requeue(retryQueue, task); settled := msg.Nack();
      case BlockGasLimitExceeded => settled := msg.Nack();
      case TooLow =>
        if IsRetryTask(task) {
          task := task.(nonce := None);
        }
        requeued := Requeue(retryQueue, task);
        settled := msg.Nack();
    }
    effects := effects + requeued + settled;
  }

  /** The requeue is fire and forget: its broker answer is never looked at. */
  method Requeue(retryQueue: Queue<EventTask>, task: EventTask) returns (ghost effects: seq<Effect>)
    modifies retryQueue
    ensures effects == [TaskRequeued(task)]
    ensures retryQueue.items == old(retryQueue.items) + [task]
  {
    var d: Delivery<()> := Delivered;
    var error := retryQueue.Publish(task, d);
    effects := [TaskRequeued(task)];
  }
}
