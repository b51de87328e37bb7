/** The sender: picks a nonce, submits the transaction and hands a receipt task over. */
module Sender {
  import opened Wrappers
  import opened Types
  import opened Storage
  import opened SenderSpec

  class Sender {
    const cache: Cache?
    const nonceKey: string

    constructor (name: string, cache: Cache?)
      ensures this.cache == cache && nonceKey == name + ":nonce"
    {
      this.cache := cache;
      nonceKey := name + ":nonce";
    }

    /** The nonce key as a value. */
    ghost function CachedNonce(): Cached
      reads cache
    {
      if cache == null then NoCache else if nonceKey in cache.m then Nonce(cache.m[nonceKey]) else Empty
    }

    /** Two states of the cache differ at most at the nonce key. */
    twostate predicate OthersKept()
      reads cache
    {
      cache != null ==> cache.m - {nonceKey} == old(cache.m) - {nonceKey}
    }

    method UpdateNonce(newNonce: nat, readOk: bool, stored: bool)
      returns (out: Outcome<()>, ghost effects: seq<Effect>)
      modifies cache
      ensures OthersKept()
      ensures out.Threw? <==> cache != null && !readOk
      ensures CachedNonce() ==
              if out.Threw? then old(CachedNonce()) else SenderSpec.UpdateNonce(old(CachedNonce()), newNonce, stored)
      ensures effects == Storing(old(CachedNonce()), CachedNonce())
    {
      effects := [];
      if cache != null {
        if !readOk {
          return Threw, [];
        }
        var oldNonce := cache.Get(nonceKey);
        if oldNonce == None || oldNonce.value < newNonce {
          if stored {
            cache.Set(nonceKey, newNonce);
            effects := [NonceStored(newNonce)];
          }
        }
      }
      out := Returned(());
    }

    method ReadNonce(forceUpdate: bool, cacheRead: bool, counted: Outcome<nat>) returns (nonce: Outcome<nat>)
      ensures nonce == SenderSpec.ReadNonce(CachedNonce(), forceUpdate, cacheRead, counted)
    {
      if cache != null && !forceUpdate {
        if cacheRead {
          var found := cache.Get(nonceKey);
          if found.Some? {
            return Returned(found.value);
          }
        }
      }
      nonce := counted;
    }

    /** Builds the receipt task and enqueues it; the answer is the error it raised, if any. */
    method EnqueueReceiptTask(task: EventTask, txHash: TxHash, nonce: nat, rpc: SenderRpc,
                              receiptQueue: Queue<ReceiptTask>)
      returns (error: Option<ErrorClass>, ghost effects: seq<Effect>)
      modifies receiptQueue
      ensures error == Track(task, txHash, nonce, rpc).error
      ensures receiptQueue.items == old(receiptQueue.items) + Track(task, txHash, nonce, rpc).receipts
      ensures effects == Tracking(Track(task, txHash, nonce, rpc).receipts)
    {
      if rpc.head.Raised? {
        return Some(rpc.head.kind), [];
      }
      var receiptTask := ReceiptTask(task, nonce, rpc.now, txHash, rpc.head.value, task.retries);
      error := receiptQueue.Publish(receiptTask, rpc.delivery);
      effects := Tracking(Arrived(receiptTask, rpc.delivery));
    }

    method ChooseNonce(task: EventTask, rpc: SenderRpc) returns (nonce: Outcome<nat>)
      ensures nonce == SenderSpec.ChooseNonce(task, CachedNonce(), rpc)
    {
      if IsRetryTask(task) {
        var current := ReadNonce(true, true, rpc.forced);
        if current.Threw? {
          return Threw;
        }
        if task.nonce.Some? && task.nonce.value >= current.value {
          return Returned(task.nonce.value);
        }
      }
      nonce := ReadNonce(false, rpc.cacheRead, rpc.counted);
    }

    /** The catch block of sendTx: the result for the error and the nonce to store. */
    method Recover(task: EventTask, used: nat, kind: ErrorClass, hash: Option<TxHash>, rpc: SenderRpc,
                   receiptQueue: Queue<ReceiptTask>)
      returns (out: Outcome<SendResult>, nonce: nat, ghost effects: seq<Effect>)
      modifies receiptQueue
      ensures var s := SenderSpec.Recover(task, used, kind, hash, rpc);
              && out == s.out && nonce == s.nonce
              && receiptQueue.items == old(receiptQueue.items) + s.receipts
              && effects == Tracking(s.receipts)
    {
      nonce, effects := used, [];
      match kind {
        case Imported =>
          out := Returned(TxImported);
          if hash.Some? {
            var error;
            error, effects := EnqueueReceiptTask(task, hash.value, nonce, rpc, receiptQueue);
            if error.Some? {
              out := Threw;
            }
          }
        case BlockGasLimit => out := Returned(BlockGasLimitExceeded);
        case InsufficientFunds => out := Returned(InsufficientFund);
        case NonceTooLow =>
          var current := ReadNonce(true, true, rpc.refreshed);
          if current.Threw? {
            return Threw, nonce, [];
          }
          nonce := current.value;
          out := Returned(TooLow);
        case TimedOut => out := Returned(Timeout);
        case Unknown => out := Returned(Failed);
      }
    }

    method SendTx(task: EventTask, rpc: SenderRpc, receiptQueue: Queue<ReceiptTask>)
      returns (out: Outcome<SendResult>, ghost effects: seq<Effect>)
      modifies cache, receiptQueue
      ensures OthersKept()
      ensures var r := SenderSpec.SendTx(task, old(CachedNonce()), rpc);
              && out == r.out
              && CachedNonce() == r.cached
              && receiptQueue.items == old(receiptQueue.items) + r.receipts
              && effects == Tracking(r.receipts) + Storing(old(CachedNonce()), r.cached)
    {
      var chosen := ChooseNonce(task, rpc);
      if chosen.Threw? {
        return Threw, [];
      }
      var nonce := chosen.value;
      if rpc.submitted.Done? {
        var error;
        error, effects := EnqueueReceiptTask(task, rpc.submitted.value, nonce, rpc, receiptQueue);
        if error.None? {
          nonce := nonce + 1;
          out := Returned(Success);
        } else {
          ghost var recovery;
          out, nonce, recovery := Recover(task, nonce, error.value, None, rpc, receiptQueue);
          effects := effects + recovery;
        }
      } else {
        out, nonce, effects := Recover(task, nonce, rpc.submitted.kind, rpc.submitted.hash, rpc, receiptQueue);
      }
      if out.Threw? {
        return;
      }
      var updated;
      ghost var update;
      updated, update := UpdateNonce(nonce, rpc.updateRead, rpc.stored);
      effects := effects + update;
      if updated.Threw? {
        out := Threw;
      }
    }

    /** Fills the nonce with a transfer to self: a hash to track, nothing to do, or an exception. */
    method SendToSelf(rpc: SenderRpc) returns (txHash: Outcome<Option<TxHash>>)
      ensures txHash == match rpc.submitted
                        case Done(hash) => Returned(Some(hash))
                        case Raised(NonceTooLow, _) => Returned(None)
                        case Raised(Imported, Some(hash)) => Returned(Some(hash))
                        case Raised(Imported, None) => Returned(Some(""))
                        case Raised(_, _) => Threw
    {
      match rpc.submitted {
        case Done(hash) => txHash := Returned(Some(hash));
        case Raised(kind, hash) =>
          if kind == NonceTooLow {
            txHash := Returned(None);
          } else if kind == Imported {
            txHash := Returned(Some(HashOrUndefined(hash)));
          } else {
            txHash := Threw;
          }
      }
    }

    method Run(task: EventTask, rpc: SenderRpc, receiptQueue: Queue<ReceiptTask>)
      returns (out: Outcome<SendResult>, ghost effects: seq<Effect>)
      modifies cache, receiptQueue
      ensures OthersKept()
      ensures var r := SenderSpec.Run(task, old(CachedNonce()), rpc);
              && out == r.out
              && CachedNonce() == r.cached
              && receiptQueue.items == old(receiptQueue.items) + r.receipts
              && effects == RunEffects(task, old(CachedNonce()), rpc)
    {
      if rpc.txInfos.Threw? {
        return Threw, [];
      }
      if rpc.txInfos.value == 0 {
        if IsRetryTask(task) {
          var current := ReadNonce(true, true, rpc.forced);
          if current.Threw? {
            return Threw, [];
          }
          if task.nonce.Some? && current.value <= task.nonce.value {
            var txHash := SendToSelf(rpc);
            if txHash.Threw? {
              return Threw, [];
            }
            if txHash.value.Some? {
              var error;
              error, effects := EnqueueReceiptTask(task, txHash.value.value, task.nonce.value, rpc, receiptQueue);
              out := if error.Some? then Threw else Returned(DummyTx);
              return;
            }
          }
        }
        return Returned(Skipped), [];
      }
      if !rpc.locked {
        return Threw, [];
      }
      out, effects := SendTx(task, rpc, receiptQueue);
      if !rpc.unlocked {
        out := Threw;
      }
    }
  }
}
