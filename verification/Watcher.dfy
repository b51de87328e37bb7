/** The watcher process: its stored mark, one poll, and a run of up to ten polls. */
module Watcher {
  import opened Wrappers
  import opened Types
  import opened Storage
  import opened WatcherSpec
  import opened Arithmetic

  class ProcessState {
    const redis: Cache
    const lastBlockRedisKey: string
    const startBlock: int
    var lastProcessedBlock: int

    constructor (id: string, redis: Cache, startBlock: int)
      ensures this.redis == redis && this.startBlock == startBlock && lastProcessedBlock == 0
      ensures lastBlockRedisKey == id + ":lastProcessedBlock"
    {
      this.redis := redis;
      lastBlockRedisKey := id + ":lastProcessedBlock";
      this.startBlock := startBlock;
      lastProcessedBlock := 0;
    }

    ghost function StoredMark(): Option<int>
      reads redis
    {
      if lastBlockRedisKey in redis.m then Some(redis.m[lastBlockRedisKey]) else None
    }

    method LoadLastProcessedBlock()
      modifies this
      ensures lastProcessedBlock == Resume(StoredMark(), startBlock)
      ensures lastProcessedBlock >= 0 && lastProcessedBlock >= startBlock
      ensures StoredMark().None? ==> lastProcessedBlock == 0 || lastProcessedBlock == startBlock
      ensures StoredMark().Some? ==>
                && lastProcessedBlock >= StoredMark().value
                && lastProcessedBlock in {0, startBlock, StoredMark().value}
    {
      var result := redis.Get(lastBlockRedisKey);
      var start := startBlock;
      if startBlock <= 0 {
        start := 0;
      }
      if result.Some? {
        lastProcessedBlock := Max(result.value, start);
      } else {
        lastProcessedBlock := start;
      }
    }

    method UpdateLastProcessedBlock(lastBlockNumber: nat, p: Persist) returns (ok: bool)
      modifies this, redis
      ensures lastProcessedBlock == lastBlockNumber
      ensures ok <==> p.Stored?
      ensures StoredMark() == Persisted(old(StoredMark()), lastBlockNumber, p)
      ensures p == Stored || p == StoredThenFailed ==> StoredMark() == Some(lastBlockNumber)
      ensures p == NotStored ==> StoredMark() == old(StoredMark())
    {
      lastProcessedBlock := lastBlockNumber;
      if !p.NotStored? {
        redis.Set(lastBlockRedisKey, lastBlockNumber);
      }
      ok := p.Stored?;
    }
  }

  class EventWatcher {
    const id: string
    const status: ProcessState
    ghost var scans: seq<Scan>

    constructor (id: string, status: ProcessState)
      ensures this.id == id && this.status == status && scans == []
    {
      this.id := id;
      this.status := status;
      scans := [];
    }

    /** The watcher as a value. */
    ghost function View(): State
      reads this, status, status.redis
    {
      State(status.startBlock, status.lastProcessedBlock, status.StoredMark(), scans)
    }

    method GetLastBlockToProcess(rpc: PollRpc) returns (block: Outcome<int>)
      ensures block == if rpc.lastBlock.Threw? || rpc.confirmations.Threw? then Threw else Returned(Target(rpc))
    {
      block := if rpc.lastBlock.Threw? || rpc.confirmations.Threw? then Threw
               else Returned(rpc.lastBlock.value - rpc.confirmations.value);
    }

    /** The node is asked for its head in the same batch, and one that lags behind the query is refused. */
    method GetEvents(toBlock: int, rpc: PollRpc) returns (events: Outcome<seq<EventId>>)
      ensures events.Returned? <==> rpc.batch.Returned? && toBlock <= rpc.batch.value.0 && rpc.decoded
      ensures events.Returned? ==> events.value == rpc.batch.value.1
    {
      if rpc.batch.Threw? {
        return Threw;
      }
      var (latestBlock, logs) := rpc.batch.value;
      if latestBlock < toBlock {
        return Threw;
      }
      events := if rpc.decoded then Returned(logs) else Threw;
    }

    method EnqueueAll(events: seq<EventId>, senderQueue: Queue<EventTask>)
      modifies senderQueue
      ensures senderQueue.items == old(senderQueue.items) + Tasks(events)
    {
      for i := 0 to |events|
        invariant senderQueue.items == old(senderQueue.items) + Tasks(events[..i])
      {
        var d: Delivery<()> := Delivered;
        var error := senderQueue.Publish(EventTask(id, events[i], None, None, None), d);
      }
      assert events[..|events|] == events;
    }

    function Tasks(events: seq<EventId>): seq<EventTask> {
      seq(|events|, i requires 0 <= i < |events| => EventTask(id, events[i], None, None, None))
    }

    /** One task an event, of this watcher's type, without nonce, retries or timestamp. */
    lemma TasksAreFresh(events: seq<EventId>)
      ensures |Tasks(events)| == |events|
      ensures forall i :: 0 <= i < |events| ==>
                var t := Tasks(events)[i];
                && t.eventType == id && t.event == events[i]
                && t.nonce == None && t.retries == None && t.timestamp == None
    {
    }

    lemma PublishedStep(s: State, rpcs: seq<PollRpc>, k: nat)
      requires k < |rpcs|
      ensures var scan := ScanOf(Polled(s, rpcs[..k]).mark, rpcs[k]);
              Tasks(Published(s, rpcs[..k+1])) ==
              Tasks(Published(s, rpcs[..k])) + if scan.None? then [] else Tasks(scan.value.events)
    {
      assert rpcs[..k+1][..k] == rpcs[..k];
    }

    /** One poll: scans the next batch of final blocks and enqueues a task per event, in order. */
    method Do(rpc: PollRpc, senderQueue: Queue<EventTask>) returns (count: int)
      requires status.lastProcessedBlock >= 0
      modifies this`scans, status, status.redis, senderQueue
      ensures View() == Poll(old(View()), rpc)
      ensures count == PollCount(old(View()), rpc)
      ensures var scan := ScanOf(old(status.lastProcessedBlock), rpc);
              senderQueue.items == old(senderQueue.items) + if scan.None? then [] else Tasks(scan.value.events)
      ensures status.lastProcessedBlock >= old(status.lastProcessedBlock)
    {
      var lastBlockToProcess := GetLastBlockToProcess(rpc);
      if lastBlockToProcess.Threw? {
        return -1;
      }
      var lastProcessedBlock := status.lastProcessedBlock;
      if lastBlockToProcess.value <= lastProcessedBlock {
        return -1;
      }
      var fromBlock := lastProcessedBlock + 1;
      var toBlock := lastBlockToProcess.value;
      if toBlock > fromBlock + BATCH_SIZE {
        toBlock := fromBlock + BATCH_SIZE;
      }
      var events := GetEvents(toBlock, rpc);
      if events.Threw? {
        return -1;
      }
      EnqueueAll(events.value, senderQueue);
      scans := scans + [Scan(fromBlock, toBlock, rpc.batch.value.0, events.value)];
      var ok := status.UpdateLastProcessedBlock(toBlock, rpc.persist);
      count := if ok then |events.value| else -1;
    }

    /** At most ten polls, stopping early on an idle or failed poll or after more than a hundred events. */
    method Run(rpcs: seq<PollRpc>, senderQueue: Queue<EventTask>) returns (calls: nat)
      requires |rpcs| == 10 && status.lastProcessedBlock >= 0
      modifies this`scans, status, status.redis, senderQueue
      ensures 0 < calls <= 10
      ensures View() == Polled(old(View()), rpcs[..calls])
      ensures senderQueue.items == old(senderQueue.items) + Tasks(Published(old(View()), rpcs[..calls]))
      ensures status.lastProcessedBlock >= old(status.lastProcessedBlock)
      ensures calls < 10 ==> Stops(old(View()), rpcs[..calls])
      ensures GoesOn(old(View()), rpcs[..calls-1])
    {
      var eventCount := 0;
      calls := 0;
      while calls < 10
        invariant 0 <= calls <= 10
        invariant status.lastProcessedBlock >= old(status.lastProcessedBlock)
        invariant View() == Polled(old(View()), rpcs[..calls])
        invariant senderQueue.items == old(senderQueue.items) + Tasks(Published(old(View()), rpcs[..calls]))
        invariant eventCount == Found(old(View()), rpcs[..calls])
        invariant GoesOn(old(View()), rpcs[..calls])
        invariant calls > 0 ==> GoesOn(old(View()), rpcs[..calls-1])
      {
        var c := Do(rpcs[calls], senderQueue);
        PublishedStep(old(View()), rpcs, calls);
        PolledStep(old(View()), rpcs, calls);
        calls := calls + 1;
        if c == -1 {
          break;
        }
        eventCount := eventCount + c;
        if eventCount > 100 {
          break;
        }
      }
    }
  }

  lemma PolledStep(s: State, rpcs: seq<PollRpc>, k: nat)
    requires k < |rpcs|
    ensures Polled(s, rpcs[..k+1]) == Poll(Polled(s, rpcs[..k]), rpcs[k])
    ensures var c := PollCount(Polled(s, rpcs[..k]), rpcs[k]);
            && Found(s, rpcs[..k+1]) == Found(s, rpcs[..k]) + (if c == -1 then 0 else c)
            && (Stops(s, rpcs[..k+1]) <==> c == -1 || Found(s, rpcs[..k+1]) > 100)
            && (GoesOn(s, rpcs[..k+1]) <==> GoesOn(s, rpcs[..k]) && !Stops(s, rpcs[..k+1]))
  {
    assert rpcs[..k+1][..k] == rpcs[..k];
  }

  function Polled(s: State, rpcs: seq<PollRpc>): State {
    if rpcs == [] then s else Poll(Polled(s, rpcs[..|rpcs|-1]), rpcs[|rpcs|-1])
  }

  /** The events the polls scan, in order. */
  function Published(s: State, rpcs: seq<PollRpc>): seq<EventId> {
    if rpcs == [] then []
    else
      var scan := ScanOf(Polled(s, rpcs[..|rpcs|-1]).mark, rpcs[|rpcs|-1]);
      Published(s, rpcs[..|rpcs|-1]) + if scan.None? then [] else scan.value.events
  }

  /** They are the events of the queries the polls add. */
  lemma {:induction false} PublishedScans(s: State, rpcs: seq<PollRpc>)
    ensures Enqueued(Polled(s, rpcs).scans) == Enqueued(s.scans) + Published(s, rpcs)
  {
    if rpcs != [] {
      var before, last := rpcs[..|rpcs|-1], rpcs[|rpcs|-1];
      PublishedScans(s, before);
      var scan := ScanOf(Polled(s, before).mark, last);
      if scan.Some? {
        EnqueuedAppend(Polled(s, before).scans, scan.value);
      }
    }
  }

  /** The events of the polls that reported any. */
  function Found(s: State, rpcs: seq<PollRpc>): int {
    if rpcs == [] then 0
    else
      var c := PollCount(Polled(s, rpcs[..|rpcs|-1]), rpcs[|rpcs|-1]);
      Found(s, rpcs[..|rpcs|-1]) + if c == -1 then 0 else c
  }

  predicate Stops(s: State, rpcs: seq<PollRpc>)
    requires rpcs != []
  {
    PollCount(Polled(s, rpcs[..|rpcs|-1]), rpcs[|rpcs|-1]) == -1 || Found(s, rpcs) > 100
  }

  /** None of the polls stops the run. */
  predicate GoesOn(s: State, rpcs: seq<PollRpc>) {
    rpcs == [] || (GoesOn(s, rpcs[..|rpcs|-1]) && !Stops(s, rpcs))
  }

  /** What the last poll adds, when those before it went on. */
  lemma LastPoll(s: State, rpcs: seq<PollRpc>)
    requires rpcs != []
    requires GoesOn(s, rpcs[..|rpcs|-1]) ==> Found(s, rpcs[..|rpcs|-1]) == |Published(s, rpcs[..|rpcs|-1])|
    ensures var last := rpcs[|rpcs|-1];
            var scan := ScanOf(Polled(s, rpcs[..|rpcs|-1]).mark, last);
            GoesOn(s, rpcs) <==>
            && GoesOn(s, rpcs[..|rpcs|-1])
            && scan.Some? && last.persist == Stored && |Published(s, rpcs)| <= 100
    ensures GoesOn(s, rpcs) ==> Found(s, rpcs) == |Published(s, rpcs)|
  {
  }

  /** Every poll was answered and had its mark stored, and never had they published more than a hundred events. */
  predicate WithinHundred(s: State, rpcs: seq<PollRpc>) {
    rpcs == [] ||
    var before, last := rpcs[..|rpcs|-1], rpcs[|rpcs|-1];
    && WithinHundred(s, before)
    && ScanOf(Polled(s, before).mark, last).Some? && last.persist == Stored
    && |Published(s, rpcs)| <= 100
  }

  /** A run goes on exactly while that holds. */
  lemma {:induction false} GoesOnExactly(s: State, rpcs: seq<PollRpc>)
    ensures GoesOn(s, rpcs) <==> WithinHundred(s, rpcs)
    ensures GoesOn(s, rpcs) ==> Found(s, rpcs) == |Published(s, rpcs)|
  {
    if rpcs != [] {
      GoesOnExactly(s, rpcs[..|rpcs|-1]);
      LastPoll(s, rpcs);
    }
  }
}
