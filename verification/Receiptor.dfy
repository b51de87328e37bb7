/** The receiptor: polls for a receipt and finishes, waits for, or sends back the event. */
module Receiptor {
  import opened Wrappers
  import opened Types

  datatype Config = Config(maxWaitReceiptBlock: nat, blockConfirmation: nat)

  datatype Receipt = Receipt(status: bool, blockNumber: nat)

  /** Every answer one run may await. */
  datatype ReceiptorRpc = ReceiptorRpc(
    receipt: Outcome<Option<Receipt>>,
    head: Outcome<nat>,
    delivery: Delivery<()>)

  datatype ReceiptResult = Success | Null | Failed | WaitingK | WaitingReceipt

  /** A failing receipt query neither resolves nor rejects, so the run hangs. */
  datatype Verdict = Result(value: ReceiptResult) | Raised | Hung

  datatype ReceiptorRun = ReceiptorRun(verdict: Verdict, resent: seq<EventTask>)

  predicate AdvancedK(head: nat, block: nat, k: nat) {
    head - block >= k
  }

  function Resend(task: ReceiptTask, nonce: Option<nat>): EventTask {
    task.eventTask.(
      nonce := nonce,
      retries := Some(if task.retries.Some? && task.retries.value > 0 then task.retries.value + 1 else 1),
      timestamp := Some(task.timestamp))
  }

  function Sent(task: EventTask, result: ReceiptResult, d: Delivery<()>): ReceiptorRun {
    ReceiptorRun(if d.Delivered? then Result(result) else Raised, Arrived(task, d))
  }

  /** No receipt after the maximum wait. */
  predicate Expired(task: ReceiptTask, cfg: Config, rpc: ReceiptorRpc) {
    rpc.receipt == Returned(None) && rpc.head.Returned? && rpc.head.value >= task.sentBlock + cfg.maxWaitReceiptBlock
  }

  predicate Reverted(rpc: ReceiptorRpc) {
    rpc.receipt.Returned? && rpc.receipt.value.Some? && !rpc.receipt.value.value.status
  }

  predicate Confirmed(cfg: Config, rpc: ReceiptorRpc) {
    && rpc.receipt.Returned? && rpc.receipt.value.Some? && rpc.receipt.value.value.status
    && rpc.head.Returned? && rpc.head.value >= rpc.receipt.value.value.blockNumber + cfg.blockConfirmation
  }

  /**
   One run. An event goes back exactly when its receipt stayed absent past the maximum wait, and
   then with its nonce, or its transaction reverted, and then without; either way it counts one
   more retry. It succeeds exactly when confirmed, and hangs exactly when the receipt query fails.
   */
  function RunSpec(task: ReceiptTask, cfg: Config, rpc: ReceiptorRpc): (r: ReceiptorRun)
    ensures |r.resent| <= 1
    ensures r.resent != [] <==> (Expired(task, cfg, rpc) || Reverted(rpc)) && !rpc.delivery.Rejected?
    ensures forall t :: t in r.resent ==>
              && IsRetryTask(t) && t.event == task.eventTask.event && t.eventType == task.eventTask.eventType
              && t.timestamp == Some(task.timestamp)
              && (task.retries.Some? ==> t.retries == Some(task.retries.value + 1))
              && (task.retries.None? ==> t.retries == Some(1))
              && t.nonce == if Expired(task, cfg, rpc) then Some(task.nonce) else None
    ensures r.verdict == Result(Null) <==> Expired(task, cfg, rpc) && rpc.delivery.Delivered?
    ensures r.verdict == Result(Failed) <==> Reverted(rpc) && rpc.delivery.Delivered?
    ensures r.verdict == Result(Success) <==> Confirmed(cfg, rpc)
    ensures r.verdict == Hung <==> rpc.receipt.Threw?
    ensures r.verdict == Result(WaitingReceipt) <==>
              rpc.receipt == Returned(None) && rpc.head.Returned? && !Expired(task, cfg, rpc)
    ensures r.verdict == Result(WaitingK) <==>
              && rpc.receipt.Returned? && rpc.receipt.value.Some? && rpc.receipt.value.value.status
              && rpc.head.Returned? && !Confirmed(cfg, rpc)
  {
    match rpc.receipt
    case Threw => ReceiptorRun(Hung, [])
    case Returned(None) =>
      if rpc.head.Threw? then ReceiptorRun(Raised, [])
      else if AdvancedK(rpc.head.value, task.sentBlock, cfg.maxWaitReceiptBlock) then
        Sent(Resend(task, Some(task.nonce)), Null, rpc.delivery)
      else ReceiptorRun(Result(WaitingReceipt), [])
    case Returned(Some(r)) =>
      if !r.status then Sent(Resend(task, None), Failed, rpc.delivery)
      else if rpc.head.Threw? then ReceiptorRun(Raised, [])
      else if AdvancedK(rpc.head.value, r.blockNumber, cfg.blockConfirmation) then ReceiptorRun(Result(Success), [])
      else ReceiptorRun(Result(WaitingK), [])
  }

  /** What becomes of the consumed message. */
  datatype Settlement = Acked | Retried | Dropped | Unsettled

  function Settle(v: Verdict): Settlement {
    match v
    case Result(Success) => Acked
    case Result(WaitingK) | Result(WaitingReceipt) | Raised => Retried
    case Result(Null) | Result(Failed) => Dropped
    case Hung => Unsettled
  }

  /** What a handler does to the world, one at a time. */
  datatype Effect = EventResent(resent: EventTask) | TaskDelayed(task: ReceiptTask) | MessageSettled

  function Resending(resent: seq<EventTask>): seq<Effect> {
    seq(|resent|, i requires 0 <= i < |resent| => EventResent(resent[i]))
  }

  function Delaying(task: ReceiptTask, s: Settlement): seq<Effect> {
    if s.Retried? then [TaskDelayed(task)] else []
  }

  /** The publishes of the handler: the resend of its run, then the message into a delay queue. */
  function Publishes(task: ReceiptTask, cfg: Config, rpc: ReceiptorRpc): seq<Effect> {
    var r := RunSpec(task, cfg, rpc);
    Resending(r.resent) + Delaying(task, Settle(r.verdict))
  }

  class Receiptor {
    const cfg: Config

    constructor (cfg: Config)
      ensures this.cfg == cfg
    {
      this.cfg := cfg;
    }

    method ResendEvent(task: ReceiptTask, nonce: Option<nat>, d: Delivery<()>, senderQueue: Queue<EventTask>)
      returns (ok: bool, ghost effects: seq<Effect>)
      modifies senderQueue
      ensures ok <==> d.Delivered?
      ensures effects == Resending(Arrived(Resend(task, nonce), d))
      ensures senderQueue.items == old(senderQueue.items) + Arrived(Resend(task, nonce), d)
    {
      var retries := if task.retries.Some? && task.retries.value > 0 then task.retries.value + 1 else 1;
      var newTask := task.eventTask.(nonce := nonce, retries := Some(retries), timestamp := Some(task.timestamp));
      var error := senderQueue.Publish(newTask, d);
      ok := error.None?;
      effects := Resending(Arrived(newTask, d));
    }

    method CheckBlockAdvancedK(block: nat, k: nat, head: Outcome<nat>) returns (advanced: Outcome<bool>)
      ensures advanced == if head.Threw? then Threw else Returned(AdvancedK(head.value, block, k))
    {
      advanced := if head.Threw? then Threw else Returned(head.value - block >= k);
    }

    method Run(task: ReceiptTask, rpc: ReceiptorRpc, senderQueue: Queue<EventTask>)
      returns (verdict: Verdict, ghost effects: seq<Effect>)
      modifies senderQueue
      ensures verdict == RunSpec(task, cfg, rpc).verdict
      ensures senderQueue.items == old(senderQueue.items) + RunSpec(task, cfg, rpc).resent
      ensures effects == Resending(RunSpec(task, cfg, rpc).resent)
    {
      effects := [];
      if rpc.receipt.Threw? {
        return Hung, [];
      }
      var result := Failed;
      var receipt := rpc.receipt.value;
      if receipt == None {
        var waited := CheckBlockAdvancedK(task.sentBlock, cfg.maxWaitReceiptBlock, rpc.head);
        if waited.Threw? {
          return Raised, effects;
        }
        if waited.value {
          var ok;
          ok, effects := ResendEvent(task, Some(task.nonce), rpc.delivery, senderQueue);
          if !ok {
            return Raised, effects;
          }
          result := Null;
        } else {
          result := WaitingReceipt;
        }
      } else if receipt.value.status {
        var confirmed := CheckBlockAdvancedK(receipt.value.blockNumber, cfg.blockConfirmation, rpc.head);
        if confirmed.Threw? {
          return Raised, effects;
        }
        result := if confirmed.value then Success else WaitingK;
      } else {
        var ok;
        ok, effects := ResendEvent(task, None, rpc.delivery, senderQueue);
        if !ok {
          return Raised, effects;
        }
        result := Failed;
      }
      verdict := Result(result);
    }

    /** The message handler: `retryQueue` delays a message and feeds it back to the receipt queue. */
    method GetReceipt(task: ReceiptTask, rpc: ReceiptorRpc, senderQueue: Queue<EventTask>,
                      retryQueue: Queue<ReceiptTask>)
      returns (settlement: Settlement, ghost effects: seq<Effect>)
      modifies senderQueue, retryQueue
      ensures settlement == Settle(RunSpec(task, cfg, rpc).verdict)
      ensures senderQueue.items == old(senderQueue.items) + RunSpec(task, cfg, rpc).resent
      ensures retryQueue.items == old(retryQueue.items) + if settlement.Retried? then [task] else []
      ensures effects == Publishes(task, cfg, rpc) + if settlement.Unsettled? then [] else [MessageSettled]
    {
      var verdict;
      verdict, effects := Run(task, rpc, senderQueue);
      match verdict {
        case Hung => settlement := Unsettled;
        case Raised => settlement := Retried;
        case Result(Success) => settlement := Acked;
        case Result(WaitingK) => settlement := Retried;
        case Result(WaitingReceipt) => settlement := Retried;
        case Result(Null) => settlement := Dropped;
        case Result(Failed) => settlement := Dropped;
      }
      if settlement.Retried? {
        var d: Delivery<()> := Delivered;
        var error := retryQueue.Publish(task, d);
        effects := effects + [TaskDelayed(task)];
      }
      if !settlement.Unsettled? {
        effects := effects + [MessageSettled];
      }
    }
  }
}
