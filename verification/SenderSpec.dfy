/**
 What one run of the sender does, as a function of the task, the cached nonce and the
 answers of every call it awaits. The class in Sender.dfy is proved against these
 functions, and the protocol in Pipeline.dfy steps with them.
 */
module SenderSpec {
  import opened Wrappers
  import opened Types

  datatype ErrorClass = Imported | BlockGasLimit | InsufficientFunds | NonceTooLow | TimedOut | Unknown

  /** A call whose error is examined. Only the submission itself knows the transaction hash. */
  datatype Attempt<+T> = Done(value: T) | Raised(kind: ErrorClass, hash: Option<TxHash>)

  datatype SendResult =
    | Success | Failed | TxImported | BlockGasLimitExceeded | InsufficientFund
    | TooLow | Skipped | Timeout | DummyTx

  /** The nonce key of the cache: no cache configured, no value stored, or a value. */
  datatype Cached = NoCache | Empty | Nonce(value: nat)

  /** Every answer a run may await, in the order of the calls. */
  datatype SenderRpc = SenderRpc(
    txInfos: Outcome<nat>,            // processEvents: how many transactions to send
    locked: bool,                     // the nonce lock was acquired
    forced: Outcome<nat>,             // readNonce(true) of a retry task
    cacheRead: bool,                  // cache.get inside readNonce(false)
    counted: Outcome<nat>,            // getNonce behind readNonce(false)
    submitted: Attempt<TxHash>,       // sendTransaction or sendToSelf
    accepted: bool,                   // unseen: the node took a transaction that got no definite answer
    head: Attempt<nat>,               // getCurrentBlock of the receipt task
    now: nat,                         // the clock, read for the receipt task
    delivery: Delivery<ErrorClass>,   // enqueueReceiptor
    refreshed: Outcome<nat>,          // readNonce(true) after nonce too low
    updateRead: bool,                 // cache.get inside updateNonce
    stored: bool,                     // cache.set inside updateNonce, not awaited
    unlocked: bool)                   // the nonce lock was released

  datatype SenderRun = SenderRun(out: Outcome<SendResult>, cached: Cached, receipts: seq<ReceiptTask>)

  function CachedValue(c: Cached): nat {
    if c.Nonce? then c.value else 0
  }

  function UpdateNonce(c: Cached, newNonce: nat, stored: bool): Cached {
    if c.NoCache? || !stored || (c.Nonce? && newNonce <= c.value) then c else Nonce(newNonce)
  }

  function ReadNonce(c: Cached, forceUpdate: bool, cacheRead: bool, counted: Outcome<nat>): Outcome<nat> {
    if c.Nonce? && !forceUpdate && cacheRead then Returned(c.value) else counted
  }

  /** A retry keeps its own nonce while the chain has not passed it. */
  predicate ReusesNonce(task: EventTask, rpc: SenderRpc) {
    IsRetryTask(task) && task.nonce.Some? && rpc.forced.Returned? && task.nonce.value >= rpc.forced.value
  }

  function ChooseNonce(task: EventTask, c: Cached, rpc: SenderRpc): Outcome<nat> {
    if IsRetryTask(task) && rpc.forced.Threw? then Threw
    else if ReusesNonce(task, rpc) then Returned(task.nonce.value)
    else ReadNonce(c, false, rpc.cacheRead, rpc.counted)
  }

  /** The run gets as far as submitting a transaction of its own. */
  predicate Submits(task: EventTask, c: Cached, rpc: SenderRpc) {
    rpc.txInfos.Returned? && rpc.txInfos.value > 0 && rpc.locked && ChooseNonce(task, c, rpc).Returned?
  }

  datatype Tracked = Tracked(receipts: seq<ReceiptTask>, error: Option<ErrorClass>)

  /** Builds the receipt task, which reads the head, and enqueues it. */
  function Track(task: EventTask, hash: TxHash, nonce: nat, rpc: SenderRpc): Tracked {
    if rpc.head.Raised? then Tracked([], Some(rpc.head.kind))
    else
      var receipt := ReceiptTask(task, nonce, rpc.now, hash, rpc.head.value, task.retries);
      Tracked(Arrived(receipt, rpc.delivery), if rpc.delivery.Delivered? then None else Some(rpc.delivery.error))
  }

  datatype Submission = Submission(out: Outcome<SendResult>, nonce: nat, receipts: seq<ReceiptTask>)

  /** The catch block of sendTx. */
  function Recover(task: EventTask, nonce: nat, kind: ErrorClass, hash: Option<TxHash>, rpc: SenderRpc): Submission
  {
    match kind
    case Imported =>
      if hash.None? then Submission(Returned(TxImported), nonce, [])
      else
        var t := Track(task, hash.value, nonce, rpc);
        Submission(if t.error.None? then Returned(TxImported) else Threw, nonce, t.receipts)
    case BlockGasLimit => Submission(Returned(BlockGasLimitExceeded), nonce, [])
    case InsufficientFunds => Submission(Returned(InsufficientFund), nonce, [])
    case NonceTooLow =>
      if rpc.refreshed.Threw? then Submission(Threw, nonce, [])
      else Submission(Returned(TooLow), rpc.refreshed.value, [])
    case TimedOut => Submission(Returned(Timeout), nonce, [])
    case Unknown => Submission(Returned(Failed), nonce, [])
  }

  /** The try block of sendTx and its catch: submit, then track; any error of either is classified. */
  function Submit(task: EventTask, nonce: nat, rpc: SenderRpc): Submission {
    match rpc.submitted
    case Raised(kind, hash) => Recover(task, nonce, kind, hash, rpc)
    case Done(hash) =>
      var t := Track(task, hash, nonce, rpc);
      if t.error.None? then Submission(Returned(Success), nonce + 1, t.receipts)
      else
        var s := Recover(task, nonce, t.error.value, None, rpc);
        s.(receipts := t.receipts + s.receipts)
  }

  function SendTx(task: EventTask, c: Cached, rpc: SenderRpc): SenderRun {
    var chosen := ChooseNonce(task, c, rpc);
    if chosen.Threw? then SenderRun(Threw, c, [])
    else
      var s := Submit(task, chosen.value, rpc);
      if s.out.Threw? || (!c.NoCache? && !rpc.updateRead) then SenderRun(Threw, c, s.receipts)
      else SenderRun(s.out, UpdateNonce(c, s.nonce, rpc.stored), s.receipts)
  }

  /** A retry whose event needs no transaction any more still has to fill its nonce. */
  predicate MustFill(task: EventTask, rpc: SenderRpc) {
    IsRetryTask(task) && task.nonce.Some? && rpc.forced.Returned? && rpc.forced.value <= task.nonce.value
  }

  /** An error that carries no hash yields `undefined`, written as the empty string. */
  function HashOrUndefined(hash: Option<TxHash>): TxHash {
    if hash.Some? then hash.value else ""
  }

  function FillNonce(task: EventTask, c: Cached, rpc: SenderRpc): SenderRun
    requires MustFill(task, rpc)
  {
    match rpc.submitted
    case Raised(NonceTooLow, _) => SenderRun(Returned(Skipped), c, [])
    case Raised(Imported, hash) => Fill(task, c, HashOrUndefined(hash), rpc)
    case Raised(_, _) => SenderRun(Threw, c, [])
    case Done(hash) => Fill(task, c, hash, rpc)
  }

  function Fill(task: EventTask, c: Cached, hash: TxHash, rpc: SenderRpc): SenderRun
    requires MustFill(task, rpc)
  {
    var t := Track(task, hash, task.nonce.value, rpc);
    SenderRun(if t.error.None? then Returned(DummyTx) else Threw, c, t.receipts)
  }

  function Run(task: EventTask, c: Cached, rpc: SenderRpc): SenderRun {
    match rpc.txInfos
    case Threw => SenderRun(Threw, c, [])
    case Returned(n) =>
      if n == 0 then
        if IsRetryTask(task) && rpc.forced.Threw? then SenderRun(Threw, c, [])
        else if MustFill(task, rpc) then FillNonce(task, c, rpc)
        else SenderRun(Returned(Skipped), c, [])
      else if !rpc.locked then SenderRun(Threw, c, [])
      else
        var r := SendTx(task, c, rpc);
        if rpc.unlocked then r else r.(out := Threw)
  }

  // ---- effects in order ----

  /** What a handler does to the world, one at a time. */
  datatype Effect =
    | TaskTracked(receipt: ReceiptTask)
    | NonceStored(nonce: nat)
    | TaskRequeued(task: EventTask)
    | MessageSettled(acked: bool)

  function Tracking(receipts: seq<ReceiptTask>): seq<Effect> {
    seq(|receipts|, i requires 0 <= i < |receipts| => TaskTracked(receipts[i]))
  }

  function Storing(c: Cached, c': Cached): seq<Effect> {
    if c'.Nonce? && c' != c then [NonceStored(c'.value)] else []
  }

  /** The effects of a run: the receipt task is out before the nonce is stored. */
  function RunEffects(task: EventTask, c: Cached, rpc: SenderRpc): seq<Effect> {
    var r := Run(task, c, rpc);
    Tracking(r.receipts) + Storing(c, r.cached)
  }
}
