/**
 The validator pipeline as a protocol. Senders, receiptors, the watcher and the chain take
 turns in any order; every RPC answer and every crash point is an input of the step.
 Queues are delayed by retries and so are not ordered: a step may take any message.
 */
module Pipeline {
  import opened Wrappers
  import opened Types
  import opened SenderSpec
  import opened SenderOutcomes
  import SenderMain
  import Receiptor

  /** What the outside world has been seen to do for an event. */
  datatype Observation =
    | NothingToDo(event: EventId)
    | Submitted(event: EventId, hash: TxHash)
    | Succeeded(hash: TxHash, block: nat)

  datatype World = World(
    cfg: Receiptor.Config,
    mined: nat,                 // transactions of the account in the chain
    head: nat,                  // height of the chain
    cached: Cached,
    senderQ: seq<EventTask>,
    receiptQ: seq<ReceiptTask>,
    enqueued: seq<EventId>,     // every event the watcher ever enqueued
    finished: seq<EventId>,
    dropped: seq<EventId>,      // given up on a block gas limit
    untracked: seq<EventId>,    // acknowledged as imported, no hash to track
    released: set<nat>,         // nonces given up with a dropped or untracked event
    freshNonces: seq<nat>,      // nonces of completed successful sends that chose a fresh nonce, in order
    taken: seq<nat>,            // fresh nonces the node accepted a transaction for, crashed runs included, in order
    log: set<Observation>)

  /** A handler completes, or its process dies after so many of its effects took place. */
  datatype Fault = Completes | CrashAt(stage: nat)

  datatype Action =
    | Watch(task: EventTask)
    | Idle
    | Send(i: nat, senderRpc: SenderRpc, fault: Fault)
    | Poll(j: nat, receiptorRpc: Receiptor.ReceiptorRpc, fault: Fault)

  /** The chain may advance during any action. */
  datatype Step = Step(action: Action, mined: nat, head: nat)

  function Start(cfg: Receiptor.Config, mined: nat, head: nat, cached: Cached): World {
    World(cfg, mined, head, cached, [], [], [], [], [], [], {}, [], [], {})
  }

  predicate Initial(w: World) {
    w == Start(w.cfg, w.mined, w.head, w.cached) && !w.cached.Nonce?
  }

  function Without<T>(q: seq<T>, i: nat): seq<T>
    requires i < |q|
  {
    q[..i] + q[i+1..]
  }

  // ---- the sender ----

  /** The hash of the transaction a run hands to the node, when it gets that far. */
  function SubmittedHash(task: EventTask, c: Cached, rpc: SenderRpc): Option<TxHash> {
    if rpc.txInfos.Threw? then None
    else if rpc.txInfos.value == 0 then
      if !MustFill(task, rpc) then None
      else if rpc.submitted.Done? then Some(rpc.submitted.value)
      else if rpc.submitted.kind.Imported? then Some(HashOrUndefined(rpc.submitted.hash)) else None
    else if !Submits(task, c, rpc) then None
    else if rpc.submitted.Done? then Some(rpc.submitted.value) else rpc.submitted.hash
  }

  function SenderLog(task: EventTask, c: Cached, rpc: SenderRpc): set<Observation> {
    (if rpc.txInfos == Returned(0) then {NothingToDo(task.event)} else {})
    + (var h := SubmittedHash(task, c, rpc); if h.Some? then {Submitted(task.event, h.value)} else {})
  }

  predicate ImportedUntracked(r: SenderRun) {
    r.out == Returned(TxImported) && r.receipts == []
  }

  predicate SentFresh(task: EventTask, rpc: SenderRpc, r: SenderRun) {
    r.out == Returned(Success) && !ReusesNonce(task, rpc)
  }

  /** The run submits a nonce it did not bring along, and the node takes the transaction, whether it says so or not. */
  predicate Takes(task: EventTask, c: Cached, rpc: SenderRpc) {
    Submits(task, c, rpc) && !ReusesNonce(task, rpc) && AcceptedByNode(rpc)
  }

  function Taken(task: EventTask, c: Cached, rpc: SenderRpc): seq<nat> {
    if Takes(task, c, rpc) then [ChooseNonce(task, c, rpc).value] else []
  }

  /** A completed run `r` of message `i`, apart from what is recorded of it. */
  function SendEffects(w: World, i: nat, r: SenderRun): World
    requires i < |w.senderQ|
  {
    var task := w.senderQ[i];
    var fate := SenderMain.Settle(task, r.out);
    var givenUp := fate.Nacked? || ImportedUntracked(r);
    w.(senderQ := Without(w.senderQ, i) + SenderMain.Republished(fate),
       receiptQ := w.receiptQ + r.receipts,
       cached := r.cached,
       finished := w.finished + if r.out == Returned(Skipped) then [task.event] else [],
       dropped := w.dropped + if fate.Nacked? then [task.event] else [],
       untracked := w.untracked + if ImportedUntracked(r) then [task.event] else [],
       released := w.released + if givenUp && task.nonce.Some? then {task.nonce.value} else {})
  }

  function SendCompletes(w: World, i: nat, rpc: SenderRpc): World
    requires i < |w.senderQ|
  {
    var task := w.senderQ[i];
    var r := SenderSpec.Run(task, w.cached, rpc);
    SendEffects(w, i, r).(
      freshNonces := w.freshNonces + if SentFresh(task, rpc, r) then [ChooseNonce(task, w.cached, rpc).value] else [],
      taken := w.taken + Taken(task, w.cached, rpc),
      log := w.log + SenderLog(task, w.cached, rpc))
  }

  /** The effects come in this order: receipt task, cached nonce, requeued task. The message is redelivered. */
  function SendCrashes(w: World, i: nat, rpc: SenderRpc, stage: nat): World
    requires i < |w.senderQ|
  {
    var task := w.senderQ[i];
    var r := SenderSpec.Run(task, w.cached, rpc);
    w.(receiptQ := w.receiptQ + if stage >= 1 then r.receipts else [],
       cached := if stage >= 2 then r.cached else w.cached,
       senderQ := w.senderQ + if stage >= 3 then SenderMain.Republished(SenderMain.Settle(task, r.out)) else [],
       taken := w.taken + Taken(task, w.cached, rpc),
       log := w.log + SenderLog(task, w.cached, rpc))
  }

  /** Nodes may lag but never count transactions that are not mined. */
  predicate HonestCounts(rpc: SenderRpc, mined: nat) {
    && (rpc.forced.Returned? ==> rpc.forced.value <= mined)
    && (rpc.counted.Returned? ==> rpc.counted.value <= mined)
    && (rpc.refreshed.Returned? ==> rpc.refreshed.value <= mined)
  }

  /** Counts are honest, and nonce too low is never said early. */
  predicate HonestSender(task: EventTask, c: Cached, rpc: SenderRpc, mined: nat) {
    && HonestCounts(rpc, mined)
    && (MustFill(task, rpc) && rpc.txInfos == Returned(0) && rpc.submitted.Raised? && rpc.submitted.kind.NonceTooLow?
        ==> task.nonce.value < mined)
    && (Submits(task, c, rpc) && Submit(task, ChooseNonce(task, c, rpc).value, rpc).out == Returned(TooLow)
        ==> ChooseNonce(task, c, rpc).value < mined)
  }

  // ---- the receiptor ----

  function PollLog(task: ReceiptTask, rpc: Receiptor.ReceiptorRpc): set<Observation> {
    if rpc.receipt.Returned? && rpc.receipt.value.Some? && rpc.receipt.value.value.status
    then {Succeeded(task.transactionHash, rpc.receipt.value.value.blockNumber)} else {}
  }

  /** A completed run `r`. A retried message waits in a delay queue and comes back, so it stays. */
  function PollEffects(w: World, j: nat, r: Receiptor.ReceiptorRun): World
    requires j < |w.receiptQ|
  {
    var fate := Receiptor.Settle(r.verdict);
    w.(senderQ := w.senderQ + r.resent,
       receiptQ := if fate.Acked? || fate.Dropped? then Without(w.receiptQ, j) else w.receiptQ,
       finished := w.finished + if fate.Acked? then [w.receiptQ[j].eventTask.event] else [])
  }

  function PollCompletes(w: World, j: nat, rpc: Receiptor.ReceiptorRpc): World
    requires j < |w.receiptQ|
  {
    var task := w.receiptQ[j];
    PollEffects(w, j, Receiptor.RunSpec(task, w.cfg, rpc)).(log := w.log + PollLog(task, rpc))
  }

  function PollCrashes(w: World, j: nat, rpc: Receiptor.ReceiptorRpc, stage: nat): World
    requires j < |w.receiptQ|
  {
    var task := w.receiptQ[j];
    var r := Receiptor.RunSpec(task, w.cfg, rpc);
    w.(senderQ := w.senderQ + if stage >= 1 then r.resent else [],
       receiptQ := w.receiptQ + if stage >= 2 && Receiptor.Settle(r.verdict).Retried? then [task] else [],
       log := w.log + PollLog(task, rpc))
  }

  /** A receipt exists only for a mined transaction, and no node is ahead of the chain. */
  predicate HonestReceiptor(task: ReceiptTask, rpc: Receiptor.ReceiptorRpc, mined: nat, head: nat) {
    && (rpc.receipt.Returned? && rpc.receipt.value.Some? ==> task.nonce < mined)
    && (rpc.head.Returned? ==> rpc.head.value <= head)
  }

  // ---- runs ----

  /** The watcher's tasks carry neither a nonce nor a retry count. */
  predicate FreshTask(t: EventTask) {
    t.nonce.None? && t.retries.None?
  }

  predicate Enabled(w: World, s: Step) {
    && w.mined <= s.mined
    && w.head <= s.head
    && match s.action
       case Watch(t) => FreshTask(t)
       case Idle => true
       case Send(i, rpc, _) => i < |w.senderQ| && HonestSender(w.senderQ[i], w.cached, rpc, s.mined)
       case Poll(j, rpc, _) => j < |w.receiptQ| && HonestReceiptor(w.receiptQ[j], rpc, s.mined, s.head)
  }

  function Act(w: World, a: Action): World
    requires a.Send? ==> a.i < |w.senderQ|
    requires a.Poll? ==> a.j < |w.receiptQ|
  {
    match a
    case Watch(t) => w.(senderQ := w.senderQ + [t], enqueued := w.enqueued + [t.event])
    case Idle => w
    case Send(i, rpc, Completes) => SendCompletes(w, i, rpc)
    case Send(i, rpc, CrashAt(stage)) => SendCrashes(w, i, rpc, stage)
    case Poll(j, rpc, Completes) => PollCompletes(w, j, rpc)
    case Poll(j, rpc, CrashAt(stage)) => PollCrashes(w, j, rpc, stage)
  }

  function Next(w: World, s: Step): World
    requires Enabled(w, s)
  {
    Act(w, s.action).(mined := s.mined, head := s.head)
  }

  predicate ValidRun(w: World, steps: seq<Step>)
    decreases |steps|
  {
    steps == [] || (Enabled(w, steps[0]) && ValidRun(Next(w, steps[0]), steps[1..]))
  }

  function After(w: World, steps: seq<Step>): World
    requires ValidRun(w, steps)
    decreases |steps|
  {
    if steps == [] then w else After(Next(w, steps[0]), steps[1..])
  }
}
