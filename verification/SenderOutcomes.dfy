/**
 What a sender run comes to, read off the answers it gets: whether a receipt task goes out, what
 becomes of the message, and where the cached nonce ends up.
 */
module SenderOutcomes {
  import opened Wrappers
  import opened Types
  import opened SenderSpec
  import opened Arithmetic
  import SenderMain

  /** Reading the head or publishing the receipt task fails. */
  function TrackError(rpc: SenderRpc): Option<ErrorClass> {
    if rpc.head.Raised? then Some(rpc.head.kind)
    else if rpc.delivery.Delivered? then None
    else Some(rpc.delivery.error)
  }

  /** A receipt task that is built also arrives, confirmed or not. */
  predicate TaskArrives(rpc: SenderRpc) {
    rpc.head.Done? && !rpc.delivery.Rejected?
  }

  /** The node reports a transaction of the run as accepted now, or before. */
  predicate ReportedAccepted(rpc: SenderRpc) {
    rpc.submitted.Done? || rpc.submitted.kind.Imported?
  }

  /**
   The node holds the transaction. A timeout, and an error that is none of the known refusals, leave
   that open: the answer may have been lost on the way back.
   */
  predicate AcceptedByNode(rpc: SenderRpc) {
    ReportedAccepted(rpc) || (rpc.accepted && (rpc.submitted.kind.TimedOut? || rpc.submitted.kind.Unknown?))
  }

  /** A run with nothing to send looks at the node's count first when it is a retry. */
  predicate SkipsOrFills(task: EventTask, rpc: SenderRpc) {
    rpc.txInfos == Returned(0) && !(IsRetryTask(task) && rpc.forced.Threw?)
  }

  /** The run leaves a receipt task. */
  predicate Tracks(task: EventTask, c: Cached, rpc: SenderRpc) {
    if rpc.txInfos == Returned(0) then MustFill(task, rpc) && ReportedAccepted(rpc) && TaskArrives(rpc)
    else
      && Submits(task, c, rpc) && TaskArrives(rpc)
      && (rpc.submitted.Done? || (rpc.submitted.kind.Imported? && rpc.submitted.hash.Some?))
  }

  /** After the submission both the cached nonce can be updated and the lock released. */
  predicate Closes(c: Cached, rpc: SenderRpc) {
    rpc.unlocked && (c.NoCache? || rpc.updateRead)
  }

  /** The error the submission ends with, if any: its own, or that of tracking it. */
  function LastError(rpc: SenderRpc): Option<ErrorClass> {
    if rpc.submitted.Raised? then Some(rpc.submitted.kind) else TrackError(rpc)
  }

  /** The message is acknowledged. */
  predicate Acks(task: EventTask, c: Cached, rpc: SenderRpc) {
    if rpc.txInfos == Returned(0) then
      && SkipsOrFills(task, rpc)
      && (MustFill(task, rpc) ==>
            if ReportedAccepted(rpc) then TrackError(rpc).None? else rpc.submitted.kind.NonceTooLow?)
    else
      && Submits(task, c, rpc) && Closes(c, rpc)
      && (if rpc.submitted.Raised? && rpc.submitted.hash.Some? then
            rpc.submitted.kind.Imported? && TrackError(rpc).None?
          else LastError(rpc) == None || LastError(rpc) == Some(Imported))
  }

  /** The message is dropped for good. */
  predicate Drops(task: EventTask, c: Cached, rpc: SenderRpc) {
    rpc.txInfos != Returned(0) && Submits(task, c, rpc) && Closes(c, rpc) && LastError(rpc) == Some(BlockGasLimit)
  }

  /** The nonce a submission hands to the cache; none when it ends in an exception. */
  function NextNonce(rpc: SenderRpc, nonce: nat): Option<nat> {
    match LastError(rpc)
    case None => Some(nonce + 1)
    case Some(NonceTooLow) => if rpc.refreshed.Returned? then Some(rpc.refreshed.value) else None
    case Some(Imported) =>
      if rpc.submitted.Raised? && rpc.submitted.hash.Some? && TrackError(rpc).Some? then None else Some(nonce)
    case Some(_) => Some(nonce)
  }

  /** How a submission ends, for every combination of answers. */
  lemma SubmitExactly(task: EventTask, nonce: nat, rpc: SenderRpc)
    ensures var s := Submit(task, nonce, rpc);
            && (s.receipts != [] <==>
                  && TaskArrives(rpc)
                  && (rpc.submitted.Done? || (rpc.submitted.kind.Imported? && rpc.submitted.hash.Some?)))
            && (s.out == Returned(Success) <==> LastError(rpc).None?)
            && (s.out == Returned(TxImported) <==>
                  && LastError(rpc) == Some(Imported)
                  && (rpc.submitted.Raised? && rpc.submitted.hash.Some? ==> TrackError(rpc).None?))
            && (s.out == Returned(BlockGasLimitExceeded) <==> LastError(rpc) == Some(BlockGasLimit))
            && (s.out == Returned(InsufficientFund) <==> LastError(rpc) == Some(InsufficientFunds))
            && (s.out == Returned(Timeout) <==> LastError(rpc) == Some(TimedOut))
            && (s.out == Returned(Failed) <==> LastError(rpc) == Some(Unknown))
            && (s.out == Returned(TooLow) <==> LastError(rpc) == Some(NonceTooLow) && rpc.refreshed.Returned?)
            && s.out != Returned(Skipped) && s.out != Returned(DummyTx)
            && (s.out.Returned? <==> NextNonce(rpc, nonce).Some?)
            && (s.out.Returned? ==> s.nonce == NextNonce(rpc, nonce).value)
  {
  }

  /** A run with nothing to send. */
  lemma SkipExactly(task: EventTask, c: Cached, rpc: SenderRpc)
    requires rpc.txInfos == Returned(0)
    ensures var r := SenderSpec.Run(task, c, rpc);
            && (r.receipts != [] <==> Tracks(task, c, rpc))
            && (r.out == Returned(Skipped) || r.out == Returned(DummyTx) <==> Acks(task, c, rpc))
            && (r.out == Threw <==> !Acks(task, c, rpc))
  {
  }

  /** A run that has something to send. */
  lemma SendExactly(task: EventTask, c: Cached, rpc: SenderRpc)
    requires rpc.txInfos != Returned(0)
    ensures var r := SenderSpec.Run(task, c, rpc);
            && (r.receipts != [] <==> Tracks(task, c, rpc))
            && (r.out == Returned(Success) || r.out == Returned(TxImported) <==> Acks(task, c, rpc))
            && (r.out == Returned(BlockGasLimitExceeded) <==> Drops(task, c, rpc))
            && r.out != Returned(Skipped) && r.out != Returned(DummyTx)
  {
    if Submits(task, c, rpc) {
      var s := Submit(task, ChooseNonce(task, c, rpc).value, rpc);
      SubmitExactly(task, ChooseNonce(task, c, rpc).value, rpc);
      assert SenderSpec.Run(task, c, rpc).receipts == s.receipts;
      assert SenderSpec.Run(task, c, rpc).out == if s.out.Threw? || !Closes(c, rpc) then Threw else s.out;
    }
  }

  /** Exactly when a run leaves a receipt task, and exactly when its message is acknowledged or dropped. */
  lemma RunExactly(task: EventTask, c: Cached, rpc: SenderRpc)
    ensures var r := SenderSpec.Run(task, c, rpc);
            var fate := SenderMain.Settle(task, r.out);
            && (r.receipts != [] <==> Tracks(task, c, rpc))
            && (fate.Acked? <==> Acks(task, c, rpc))
            && (fate.Nacked? <==> Drops(task, c, rpc))
  {
    if rpc.txInfos == Returned(0) {
      SkipExactly(task, c, rpc);
    } else {
      SendExactly(task, c, rpc);
    }
  }

  /** Exactly when the cached nonce of a finished run is at least some bound. */
  lemma CachedExactly(task: EventTask, c: Cached, rpc: SenderRpc, bound: nat)
    ensures var c' := SenderSpec.Run(task, c, rpc).cached;
            (c'.Nonce? && bound <= c'.value) <==>
            || (c.Nonce? && bound <= c.value)
            || (&& Submits(task, c, rpc) && !c.NoCache? && rpc.updateRead && rpc.stored
                && var next := NextNonce(rpc, ChooseNonce(task, c, rpc).value);
                next.Some? && bound <= next.value)
  {
    if Submits(task, c, rpc) {
      SubmitExactly(task, ChooseNonce(task, c, rpc).value, rpc);
    }
  }

  // ---- the nonce a run uses ----

  /**
   Which nonce a run submits with. A retry keeps its own exactly when the node's count has not passed
   it; every other run takes the cached nonce when the cache holds one and answers, else the count.
   */
  lemma NonceChosen(task: EventTask, c: Cached, rpc: SenderRpc)
    ensures var chosen := ChooseNonce(task, c, rpc);
            var otherwise := if c.Nonce? && rpc.cacheRead then Returned(c.value) else rpc.counted;
            if task.retries.Some? && task.retries.value > 0 then
              match (rpc.forced, task.nonce)
              case (Threw, _) => chosen == Threw
              case (Returned(m), Some(n)) => chosen == if n >= m then Returned(n) else otherwise
              case (Returned(_), None) => chosen == otherwise
            else chosen == otherwise
  {
  }

  /** Every receipt task of a run that has something to send is under the nonce chosen, and needs the lock. */
  lemma SendsUnderChosen(task: EventTask, c: Cached, rpc: SenderRpc)
    requires rpc.txInfos != Returned(0)
    ensures var r := SenderSpec.Run(task, c, rpc);
            && (r.receipts != [] ==>
                  rpc.locked && rpc.txInfos.Returned? && ChooseNonce(task, c, rpc) == Returned(r.receipts[0].nonce))
            && (!rpc.locked || rpc.txInfos.Threw? || ChooseNonce(task, c, rpc).Threw? ==> r == SenderRun(Threw, c, []))
  {
  }

  /**
   A run with nothing to send fills the nonce of a retry exactly when the node's count has not passed
   it, with a transaction to track unless the node finds the nonce too low; the cache is not touched.
   */
  lemma FillsExactly(task: EventTask, c: Cached, rpc: SenderRpc)
    requires rpc.txInfos == Returned(0)
    ensures var r := SenderSpec.Run(task, c, rpc);
            var retry := task.retries.Some? && task.retries.value > 0;
            && r.cached == c
            && if retry && rpc.forced.Threw? then r == SenderRun(Threw, c, [])
               else if retry && task.nonce.Some? && task.nonce.value >= rpc.forced.value then
                 match rpc.submitted
                 case Done(hash) => FillTracked(task, hash, rpc, r)
                 case Raised(Imported, Some(hash)) => FillTracked(task, hash, rpc, r)
                 case Raised(Imported, None) => FillTracked(task, "", rpc, r)
                 case Raised(NonceTooLow, _) => r == SenderRun(Returned(Skipped), c, [])
                 case Raised(_, _) => r == SenderRun(Threw, c, [])
               else r == SenderRun(Returned(Skipped), c, [])
  {
  }

  /** The filling transaction has a receipt task under the retry's nonce, if that could be published. */
  predicate FillTracked(task: EventTask, hash: TxHash, rpc: SenderRpc, r: SenderRun)
    requires task.nonce.Some?
  {
    && (r.out == Returned(DummyTx) <==> rpc.head.Done? && rpc.delivery.Delivered?)
    && (r.out != Returned(DummyTx) ==> r.out == Threw)
    && r.receipts == if rpc.head.Done? && !rpc.delivery.Rejected?
                     then [ReceiptTask(task, task.nonce.value, rpc.now, hash, rpc.head.value, task.retries)] else []
  }

  /** No retry goes back below the node's count: neither its submission nor any receipt task it leaves. */
  lemma NeverBelowCount(task: EventTask, c: Cached, rpc: SenderRpc, m: nat)
    requires IsRetryTask(task) && rpc.forced == Returned(m)
    requires if c.Nonce? && rpc.cacheRead then c.value >= m else (rpc.counted.Returned? ==> rpc.counted.value >= m)
    ensures ChooseNonce(task, c, rpc).Returned? ==> ChooseNonce(task, c, rpc).value >= m
    ensures forall t :: t in SenderSpec.Run(task, c, rpc).receipts ==> t.nonce >= m
  {
    if rpc.txInfos == Returned(0) {
      FillsExactly(task, c, rpc);
    } else {
      SendsUnderChosen(task, c, rpc);
      NonceChosen(task, c, rpc);
      OneReceipt(task, c, rpc);
    }
  }

  lemma OneReceipt(task: EventTask, c: Cached, rpc: SenderRpc)
    ensures |SenderSpec.Run(task, c, rpc).receipts| <= 1
  {
  }
}
