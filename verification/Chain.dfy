/** The event record of a chain, shared by the validator's watcher and the monitor. */
module Chain {

  /** The events of each block, in order. */
  type Ledger<E> = int -> seq<E>

  function EventsIn<E>(chain: Ledger<E>, from: int, end: int): seq<E>
    decreases end - from
  {
    if from > end then [] else EventsIn(chain, from, end - 1) + chain(end)
  }

  /** A range may be scanned in two parts. */
  lemma {:induction false} EventsSplit<E>(chain: Ledger<E>, from: int, mid: int, end: int)
    requires from - 1 <= mid <= end
    ensures EventsIn(chain, from, end) == EventsIn(chain, from, mid) + EventsIn(chain, mid + 1, end)
    decreases end - mid
  {
    if mid < end {
      EventsSplit(chain, from, mid, end - 1);
    }
  }
}
