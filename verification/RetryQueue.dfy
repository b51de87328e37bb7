/** The delay queues a requeued message passes through on its way back to the sender. */
module RetryQueue {
  import opened Wrappers
  import opened Arithmetic

  function Pow2(n: nat): nat {
    if n == 0 then 1 else 2 * Pow2(n - 1)
  }

  lemma NextPower(d: nat, n: nat)
    ensures d * Pow2(n) * 2 == d * Pow2(n + 1)
  {
    var p := Pow2(n);
    assert Pow2(n + 1) == 2 * p;
    Reassociate(d, p);
  }

  lemma Reassociate(d: nat, p: nat)
    ensures d * p * 2 == d * (2 * p)
  {
  }

  /** Sets up the queues; the answer holds the time to live of each, by its number. */
  method CreateRetryQueues(retryDelay: nat, retryLimit: nat) returns (ttl: seq<nat>)
    ensures |ttl| == retryLimit + 1
    ensures forall i :: 0 <= i <= retryLimit ==> ttl[i] == retryDelay * Pow2(i)
  {
    ttl := [];
    var delay := retryDelay;
    for i := 0 to retryLimit + 1
      invariant |ttl| == i && delay == retryDelay * Pow2(i)
      invariant forall k :: 0 <= k < i ==> ttl[k] == retryDelay * Pow2(k)
    {
      ttl := ttl + [delay];
      NextPower(retryDelay, i);
      delay := delay * 2;
    }
  }

  /** The requeue of a message with a retry header: the queue it goes to and the header it carries there. */
  method Requeue(header: Option<nat>, retryLimit: nat) returns (queue: nat, newHeader: nat)
    ensures newHeader == queue + 1 <= retryLimit + 1
    ensures header.None? ==> queue == 0
    ensures header.Some? && header.value <= retryLimit ==> queue == header.value
    ensures header.Some? && header.value > retryLimit ==> queue == retryLimit
    ensures (queue, newHeader) == Requeued(header, retryLimit)
  {
    var retry := if header.Some? then header.value else 0;
    retry := if retry > retryLimit then retryLimit else retry;
    queue := retry;
    newHeader := retry + 1;
  }

  function Requeued(header: Option<nat>, retryLimit: nat): (nat, nat) {
    var retry := if header.Some? then Min(header.value, retryLimit) else 0;
    (retry, retry + 1)
  }

  /** The header of a message after so many requeues. */
  function HeaderAfter(n: nat, retryLimit: nat): Option<nat> {
    if n == 0 then None else Some(Requeued(HeaderAfter(n - 1, retryLimit), retryLimit).1)
  }

  function QueueOf(n: nat, retryLimit: nat): nat {
    Requeued(HeaderAfter(n, retryLimit), retryLimit).0
  }

  /** The wait of the n-th requeue. */
  function WaitOf(n: nat, retryDelay: nat, retryLimit: nat): nat {
    retryDelay * Pow2(QueueOf(n, retryLimit))
  }

  function Sum(waits: nat -> nat, n: nat): nat {
    if n == 0 then 0 else Sum(waits, n - 1) + waits(n - 1)
  }

  function TotalWait(n: nat, retryDelay: nat, retryLimit: nat): nat {
    Sum(k => WaitOf(k, retryDelay, retryLimit), n)
  }

  /** The n-th requeue, counted from zero, uses queue min(n, limit); the header never passes limit + 1. */
  lemma {:induction false} QueueOfRequeue(n: nat, retryLimit: nat)
    ensures QueueOf(n, retryLimit) == Min(n, retryLimit)
    ensures HeaderAfter(n, retryLimit) == if n == 0 then None else Some(Min(n, retryLimit + 1))
  {
    if n > 0 {
      QueueOfRequeue(n - 1, retryLimit);
    }
  }

  /** The n-th wait doubles with n up to the limit. */
  lemma WaitOfRequeue(n: nat, retryDelay: nat, retryLimit: nat)
    ensures WaitOf(n, retryDelay, retryLimit) == retryDelay * Pow2(Min(n, retryLimit))
  {
    QueueOfRequeue(n, retryLimit);
  }

  lemma {:induction false} ConstantTail(waits: nat -> nat, start: nat, extra: nat, step: nat)
    requires forall k: nat :: k >= start ==> waits(k) == step
    ensures Sum(waits, start + extra) == Sum(waits, start) + extra * step
    decreases extra
  {
    if extra > 0 {
      ConstantTail(waits, start, extra - 1, step);
      assert (extra - 1) * step + step == extra * step;
    }
  }

  lemma OneMoreWait(n: nat, retryDelay: nat, retryLimit: nat)
    ensures TotalWait(n + 1, retryDelay, retryLimit) ==
            TotalWait(n, retryDelay, retryLimit) + WaitOf(n, retryDelay, retryLimit)
  {
  }

  lemma {:induction false} DoublingSum(n: nat, retryDelay: nat, retryLimit: nat)
    requires n <= retryLimit + 1
    ensures TotalWait(n, retryDelay, retryLimit) + retryDelay == retryDelay * Pow2(n)
  {
    if n > 0 {
      DoublingSum(n - 1, retryDelay, retryLimit);
      OneMoreWait(n - 1, retryDelay, retryLimit);
      WaitOfRequeue(n - 1, retryDelay, retryLimit);
      NextPower(retryDelay, n - 1);
    }
  }

  /** Up to the limit each requeue doubles the wait, so the waits add up to a power of two less one. */
  lemma DoublingBackoff(n: nat, retryDelay: nat, retryLimit: nat)
    requires n <= retryLimit + 1
    ensures TotalWait(n, retryDelay, retryLimit) == retryDelay * (Pow2(n) - 1)
  {
    DoublingSum(n, retryDelay, retryLimit);
    LessOne(retryDelay, Pow2(n));
  }

  lemma LessOne(d: nat, p: nat)
    ensures d * p - d == d * (p - 1)
  {
  }

  /** Beyond the limit every requeue adds the same, longest wait. */
  lemma LinearBackoff(extra: nat, retryDelay: nat, retryLimit: nat)
    ensures TotalWait(retryLimit + 1 + extra, retryDelay, retryLimit) ==
            TotalWait(retryLimit + 1, retryDelay, retryLimit) + extra * WaitOf(retryLimit, retryDelay, retryLimit)
  {
    forall k: nat | k >= retryLimit + 1
      ensures WaitOf(k, retryDelay, retryLimit) == WaitOf(retryLimit, retryDelay, retryLimit)
    {
      WaitOfRequeue(k, retryDelay, retryLimit);
      WaitOfRequeue(retryLimit, retryDelay, retryLimit);
    }
    var longest := WaitOf(retryLimit, retryDelay, retryLimit);
    ConstantTail(k => WaitOf(k, retryDelay, retryLimit), retryLimit + 1, extra, longest);
  }
}
