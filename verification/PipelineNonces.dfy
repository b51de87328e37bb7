/** Nonces over whole runs: no gap without an owner. */
module PipelineNonces {
  import opened Wrappers
  import opened Types
  import opened SenderSpec
  import opened Pipeline
  import opened Arithmetic
  import SenderMain
  import Receiptor

  ghost predicate HeldBySender(q: seq<EventTask>, k: nat) {
    exists t :: t in q && IsRetryTask(t) && t.nonce == Some(k)
  }

  ghost predicate HeldByReceipt(q: seq<ReceiptTask>, k: nat) {
    exists r :: r in q && r.nonce == k
  }

  /** Every nonce between the mined count and the cached nonce has an owner, or was knowingly given up. */
  ghost predicate NoOrphan(w: World) {
    forall k: nat :: w.mined <= k < CachedValue(w.cached) ==>
      HeldBySender(w.senderQ, k) || HeldByReceipt(w.receiptQ, k) || k in w.released
  }

  /** No nonce in flight is beyond what the cache or the chain already accounts for. */
  ghost predicate Bounded(w: World) {
    && (forall t :: t in w.senderQ && t.nonce.Some? ==>
          IsRetryTask(t) && t.nonce.value <= Max(CachedValue(w.cached), w.mined))
    && (forall r :: r in w.receiptQ ==> r.nonce <= Max(CachedValue(w.cached), w.mined))
  }

  // ---- one run of the sender ----

  predicate OwnBounded(task: EventTask, c: Cached, mined: nat) {
    task.nonce.Some? ==> task.nonce.value <= Max(CachedValue(c), mined)
  }

  lemma SubmitNonces(task: EventTask, nonce: nat, rpc: SenderRpc, mined: nat)
    requires HonestCounts(rpc, mined)
    ensures var s := Submit(task, nonce, rpc);
            && (forall r :: r in s.receipts ==> r.nonce == nonce)
            && (s.out == Returned(Success) ==> s.nonce == nonce + 1 && s.receipts != [])
            && (s.out.Returned? && s.out != Returned(Success) ==> s.nonce == nonce || s.nonce <= mined)
  {
  }

  /** The cached nonce grows only over nonces that are mined or that the new receipt task holds. */
  lemma RunNonces(task: EventTask, c: Cached, rpc: SenderRpc, mined: nat)
    requires HonestCounts(rpc, mined) && OwnBounded(task, c, mined)
    ensures var r := SenderSpec.Run(task, c, rpc);
            && CachedValue(c) <= CachedValue(r.cached)
            && (forall t :: t in r.receipts ==> t.nonce <= Max(CachedValue(c), mined))
            && (forall k: nat :: CachedValue(c) <= k < CachedValue(r.cached) ==>
                  k < mined || HeldByReceipt(r.receipts, k))
  {
    var r := SenderSpec.Run(task, c, rpc);
    var n := ChooseNonce(task, c, rpc);
    if rpc.txInfos.Returned? && rpc.txInfos.value > 0 && rpc.locked && n.Returned? {
      SubmitNonces(task, n.value, rpc, mined);
      var s := Submit(task, n.value, rpc);
      assert n.value <= Max(CachedValue(c), mined);
      forall k: nat | CachedValue(c) <= k < CachedValue(r.cached)
        ensures k < mined || HeldByReceipt(r.receipts, k)
      {
        if s.out == Returned(Success) {
          assert k <= n.value;
          assert s.receipts[0] in r.receipts;
        }
      }
    }
  }

  lemma SubmitKeepsNonce(task: EventTask, nonce: nat, rpc: SenderRpc)
    ensures var s := Submit(task, nonce, rpc);
            || HeldByReceipt(s.receipts, nonce)
            || (s.receipts == [] && s.out != Returned(Success)
                && s.out != Returned(Skipped) && s.out != Returned(DummyTx))
  {
    var s := Submit(task, nonce, rpc);
    if s.receipts != [] {
      assert s.receipts[0] in s.receipts;
    }
  }

  lemma FillKeepsNonce(task: EventTask, c: Cached, rpc: SenderRpc)
    requires MustFill(task, rpc)
    ensures var r := FillNonce(task, c, rpc);
            || HeldByReceipt(r.receipts, task.nonce.value)
            || r.out == Threw
            || (r.out == Returned(Skipped) && rpc.submitted.Raised? && rpc.submitted.kind.NonceTooLow?)
  {
    var r := FillNonce(task, c, rpc);
    if r.receipts != [] {
      assert r.receipts[0] in r.receipts;
    }
  }

  /** A retry keeps its nonce, hands it to a receipt task, or the chain has passed it, unless it is given up. */
  lemma RunKeepsNonce(task: EventTask, c: Cached, rpc: SenderRpc, mined: nat)
    requires HonestSender(task, c, rpc, mined)
    requires IsRetryTask(task) && task.nonce.Some? && mined <= task.nonce.value
    ensures var r := SenderSpec.Run(task, c, rpc);
            var fate := SenderMain.Settle(task, r.out);
            || HeldByReceipt(r.receipts, task.nonce.value)
            || fate == SenderMain.Requeued(task)
            || fate.Nacked?
            || ImportedUntracked(r)
  {
    if rpc.txInfos.Returned? && rpc.forced.Returned? {
      if rpc.txInfos.value == 0 {
        FillKeepsNonce(task, c, rpc);
      } else if rpc.locked {
        SubmitKeepsNonce(task, task.nonce.value, rpc);
      }
    }
  }

  // ---- steps ----

  lemma WithoutMembers<T>(q: seq<T>, i: nat)
    requires i < |q|
    ensures forall x :: x in Without(q, i) ==> x in q
    ensures forall x :: x in q ==> x == q[i] || x in Without(q, i)
  {
    var rest := Without(q, i);
    forall x | x in q ensures x == q[i] || x in rest {
      var j :| 0 <= j < |q| && q[j] == x;
      if j < i {
        assert rest[j] == x;
      } else if i < j {
        assert rest[j-1] == x;
      }
    }
  }

  lemma SendBounded(w: World, s: Step)
    requires Bounded(w) && Enabled(w, s) && s.action.Send?
    ensures Bounded(Next(w, s))
  {
    var Send(i, rpc, fault) := s.action;
    var task := w.senderQ[i];
    WithoutMembers(w.senderQ, i);
    RunNonces(task, w.cached, rpc, s.mined);
    var r := SenderSpec.Run(task, w.cached, rpc);
    assert CachedValue(w.cached) <= CachedValue(r.cached);
    assert forall t :: t in SenderMain.Republished(SenderMain.Settle(task, r.out)) ==> t == task || t.nonce.None?;
  }

  lemma SendOwned(w: World, s: Step, k: nat)
    requires Bounded(w) && Enabled(w, s) && s.action.Send? && s.mined <= k
    requires HeldBySender(w.senderQ, k)
    ensures var w' := Next(w, s);
            HeldBySender(w'.senderQ, k) || HeldByReceipt(w'.receiptQ, k) || k in w'.released
  {
    var Send(i, rpc, fault) := s.action;
    var task := w.senderQ[i];
    var w' := Next(w, s);
    WithoutMembers(w.senderQ, i);
    var t :| t in w.senderQ && IsRetryTask(t) && t.nonce == Some(k);
    if t !in w'.senderQ {
      assert t == task;
      RunKeepsNonce(t, w.cached, rpc, s.mined);
      var r := SenderSpec.Run(t, w.cached, rpc);
      if HeldByReceipt(r.receipts, k) {
        var x :| x in r.receipts && x.nonce == k;
        assert x in w'.receiptQ;
      }
    }
  }

  lemma ReceiptStays(q: seq<ReceiptTask>, more: seq<ReceiptTask>, k: nat)
    requires HeldByReceipt(more, k)
    ensures HeldByReceipt(q + more, k)
  {
    var t :| t in more && t.nonce == k;
    assert t in q + more;
  }

  /** A crash cannot leave the cached nonce advanced without the receipt task: the receipt task comes first. */
  lemma ReceiptBeforeNonce(w: World, s: Step)
    requires Enabled(w, s) && s.action.Send?
    ensures var r := SenderSpec.Run(w.senderQ[s.action.i], w.cached, s.action.senderRpc);
            var w' := Next(w, s);
            w'.cached == w.cached || (w'.cached == r.cached && w'.receiptQ == w.receiptQ + r.receipts)
  {
  }

  lemma SendCovers(w: World, s: Step, k: nat)
    requires Bounded(w) && Enabled(w, s) && s.action.Send? && s.mined <= k
    requires CachedValue(w.cached) <= k < CachedValue(Next(w, s).cached)
    ensures HeldByReceipt(Next(w, s).receiptQ, k)
  {
    var Send(i, rpc, fault) := s.action;
    var r := SenderSpec.Run(w.senderQ[i], w.cached, rpc);
    ReceiptBeforeNonce(w, s);
    RunNonces(w.senderQ[i], w.cached, rpc, s.mined);
    assert HeldByReceipt(r.receipts, k);
    ReceiptStays(w.receiptQ, r.receipts, k);
  }

  lemma SendNonces(w: World, s: Step)
    requires NoOrphan(w) && Bounded(w) && Enabled(w, s) && s.action.Send?
    ensures NoOrphan(Next(w, s))
  {
    var w' := Next(w, s);
    forall k: nat | w'.mined <= k < CachedValue(w'.cached)
      ensures HeldBySender(w'.senderQ, k) || HeldByReceipt(w'.receiptQ, k) || k in w'.released
    {
      if CachedValue(w.cached) <= k {
        SendCovers(w, s, k);
      } else if HeldBySender(w.senderQ, k) {
        SendOwned(w, s, k);
      } else if HeldByReceipt(w.receiptQ, k) {
        var x :| x in w.receiptQ && x.nonce == k;
        assert x in w'.receiptQ;
      }
    }
  }

  lemma PollOwned(w: World, s: Step, k: nat)
    requires Enabled(w, s) && s.action.Poll? && s.mined <= k
    requires HeldByReceipt(w.receiptQ, k)
    ensures HeldBySender(Next(w, s).senderQ, k) || HeldByReceipt(Next(w, s).receiptQ, k)
  {
    var Poll(j, rpc, fault) := s.action;
    var w' := Next(w, s);
    WithoutMembers(w.receiptQ, j);
    var t :| t in w.receiptQ && t.nonce == k;
    if t !in w'.receiptQ {
      assert t == w.receiptQ[j];
      assert Receiptor.Resend(t, Some(k)) in w'.senderQ;
    }
  }

  lemma PollNonces(w: World, s: Step)
    requires NoOrphan(w) && Bounded(w) && Enabled(w, s) && s.action.Poll?
    ensures NoOrphan(Next(w, s)) && Bounded(Next(w, s))
  {
    var w' := Next(w, s);
    WithoutMembers(w.receiptQ, s.action.j);
    forall k: nat | w'.mined <= k < CachedValue(w'.cached)
      ensures HeldBySender(w'.senderQ, k) || HeldByReceipt(w'.receiptQ, k) || k in w'.released
    {
      if HeldBySender(w.senderQ, k) {
        var t :| t in w.senderQ && IsRetryTask(t) && t.nonce == Some(k);
        assert t in w'.senderQ;
      } else if HeldByReceipt(w.receiptQ, k) {
        PollOwned(w, s, k);
      }
    }
  }

  lemma StepNonces(w: World, s: Step)
    requires NoOrphan(w) && Bounded(w) && Enabled(w, s)
    ensures NoOrphan(Next(w, s)) && Bounded(Next(w, s))
  {
    match s.action
    case Send(_, _, _) => SendNonces(w, s); SendBounded(w, s);
    case Poll(_, _, _) => PollNonces(w, s);
    case Watch(t) =>
      var w' := Next(w, s);
      assert forall x :: x in w.senderQ ==> x in w'.senderQ;
      assert forall k :: HeldBySender(w.senderQ, k) ==> HeldBySender(w'.senderQ, k);
    case Idle =>
  }

  /**
   In every reachable state, whatever exceptions, lost cache operations and crashes occurred,
   each nonce from the mined count up to the cached nonce is owned by a task in flight or was given up.
   */
  lemma {:induction false} NoOrphanNonce(w: World, steps: seq<Step>)
    requires Initial(w) || (NoOrphan(w) && Bounded(w))
    requires ValidRun(w, steps)
    ensures NoOrphan(After(w, steps)) && Bounded(After(w, steps))
    decreases |steps|
  {
    if steps != [] {
      StepNonces(w, steps[0]);
      NoOrphanNonce(Next(w, steps[0]), steps[1..]);
    }
  }
}
