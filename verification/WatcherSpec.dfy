/** The watcher on values: one poll, restarts, and the event record of the chain it scans. */
module WatcherSpec {
  import opened Wrappers
  import opened Types
  import opened Chain
  import opened Arithmetic

  const BATCH_SIZE := 500

  datatype Persist = Stored | NotStored | StoredThenFailed

  /** The answers one poll awaits; the batch reports the node's own head beside the logs. */
  datatype PollRpc = PollRpc(
    lastBlock: Outcome<int>,
    confirmations: Outcome<int>,
    batch: Outcome<(int, seq<EventId>)>,
    decoded: bool,
    persist: Persist)

  /** A query the watcher enqueued events from, and the head the answering node reported. */
  datatype Scan = Scan(from: int, to: int, head: int, events: seq<EventId>)

  datatype State = State(
    start: int,
    mark: int,
    persisted: Option<int>,
    scans: seq<Scan>)

  /** Where a process starts: the stored mark if there is one, never before the configured block. */
  function Resume(persisted: Option<int>, start: int): int {
    var from := Max(start, 0);
    if persisted.Some? then Max(persisted.value, from) else from
  }

  function Enqueued(scans: seq<Scan>): seq<EventId> {
    if scans == [] then [] else Enqueued(scans[..|scans|-1]) + scans[|scans|-1].events
  }

  lemma EnqueuedAppend(scans: seq<Scan>, scan: Scan)
    ensures Enqueued(scans + [scan]) == Enqueued(scans) + scan.events
  {
    assert (scans + [scan])[..|scans|] == scans;
  }

  function Target(rpc: PollRpc): int
    requires rpc.lastBlock.Returned? && rpc.confirmations.Returned?
  {
    rpc.lastBlock.value - rpc.confirmations.value
  }

  function BatchEnd(mark: int, target: int): int {
    Min(target, mark + 1 + BATCH_SIZE)
  }

  /** The query a poll gets an answer to, if it gets that far. */
  function ScanOf(mark: int, rpc: PollRpc): Option<Scan> {
    if rpc.lastBlock.Threw? || rpc.confirmations.Threw? || Target(rpc) <= mark then None
    else
      var to := BatchEnd(mark, Target(rpc));
      if rpc.batch.Threw? || rpc.batch.value.0 < to || !rpc.decoded then None
      else Some(Scan(mark + 1, to, rpc.batch.value.0, rpc.batch.value.1))
  }

  /**
   Exactly which blocks a poll scans: from the block after the mark, at most 501 of them and none with
   fewer than the required confirmations, answered by a node that has reached their end.
   */
  lemma ScanExactly(mark: int, rpc: PollRpc)
    ensures match (rpc.lastBlock, rpc.confirmations, rpc.batch)
            case (Returned(last), Returned(confirmations), Returned((head, events))) =>
              var final := last - confirmations;
              var to := if final > mark + 501 then mark + 501 else final;
              ScanOf(mark, rpc) ==
                if final > mark && to <= head && rpc.decoded then Some(Scan(mark + 1, to, head, events)) else None
            case _ => ScanOf(mark, rpc) == None
  {
  }

  function Persisted(old': Option<int>, mark: int, p: Persist): Option<int> {
    if p.NotStored? then old' else Some(mark)
  }

  function Poll(s: State, rpc: PollRpc): State {
    match ScanOf(s.mark, rpc)
    case None => s
    case Some(scan) =>
      s.(mark := scan.to, persisted := Persisted(s.persisted, scan.to, rpc.persist), scans := s.scans + [scan])
  }

  /** The number of events found, or -1 when the poll found nothing to do or failed. */
  function PollCount(s: State, rpc: PollRpc): int {
    match ScanOf(s.mark, rpc)
    case None => -1
    case Some(scan) => if rpc.persist.Stored? then |scan.events| else -1
  }

  /** A poll counts the events it found, or fails when it had nothing to scan or could not store its mark. */
  lemma CountExactly(s: State, rpc: PollRpc)
    ensures PollCount(s, rpc) == -1 <==> ScanOf(s.mark, rpc).None? || rpc.persist != Stored
    ensures PollCount(s, rpc) != -1 ==> rpc.batch.Returned? && PollCount(s, rpc) == |rpc.batch.value.1|
  {
  }

  function Restart(s: State): State {
    s.(mark := Resume(s.persisted, s.start))
  }

  /**
   The process dies in a poll. The publishes are not awaited, so whether or not the mark was stored,
   only the first of the events may have been sent.
   */
  function Die(s: State, rpc: PollRpc, published: nat, marked: bool): State {
    match ScanOf(s.mark, rpc)
    case None => Restart(s)
    case Some(scan) =>
      Restart(s.(scans := s.scans + [scan.(events := Sent(scan, published))],
                 persisted := if marked then Some(scan.to) else s.persisted))
  }

  function Sent(scan: Scan, published: nat): seq<EventId> {
    scan.events[..Min(published, |scan.events|)]
  }

  /** The events of blocks up to the stored mark that a death leaves unsent. */
  function UnsentBy(s: State, step: Step): seq<EventId> {
    if step.Dies? && step.marked && ScanOf(s.mark, step.rpc).Some? then
      var events := ScanOf(s.mark, step.rpc).value.events;
      events[Min(step.published, |events|)..]
    else []
  }

  datatype Step = Polls(rpc: PollRpc) | Restarts | Dies(rpc: PollRpc, published: nat, marked: bool)

  function Next(s: State, step: Step): State {
    match step
    case Polls(rpc) => Poll(s, rpc)
    case Restarts => Restart(s)
    case Dies(rpc, published, marked) => Die(s, rpc, published, marked)
  }

  function After(s: State, steps: seq<Step>): State {
    if steps == [] then s else Next(After(s, steps[..|steps|-1]), steps[|steps|-1])
  }

  function Unsent(s: State, steps: seq<Step>): seq<EventId> {
    if steps == [] then []
    else Unsent(s, steps[..|steps|-1]) + UnsentBy(After(s, steps[..|steps|-1]), steps[|steps|-1])
  }

  /** A node that has reached the end of a query answers with the events of its blocks. */
  ghost predicate HonestAnswer(chain: Ledger<EventId>, mark: int, rpc: PollRpc) {
    ScanOf(mark, rpc).Some? ==>
      var scan := ScanOf(mark, rpc).value;
      scan.events == EventsIn(chain, scan.from, scan.to)
  }

  ghost predicate Honest(chain: Ledger<EventId>, s: State, steps: seq<Step>) {
    steps == [] ||
    var before, last := steps[..|steps|-1], steps[|steps|-1];
    && Honest(chain, s, before)
    && (last.Restarts? || HonestAnswer(chain, After(s, before).mark, last.rpc))
  }

  function Cold(start: int, persisted: Option<int>): State {
    State(start, Resume(persisted, start), persisted, [])
  }
}
