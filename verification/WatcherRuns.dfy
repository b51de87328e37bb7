/** What the watcher guarantees over any sequence of polls, failures, crashes and restarts. */
module WatcherRuns {
  import opened Wrappers
  import opened Types
  import opened Chain
  import opened Arithmetic
  import opened WatcherSpec

  // ---- exact tiling ----

  /** Where a list of queries that began at mark `m0` ends. */
  function EndOf(m0: int, scans: seq<Scan>): int {
    if scans == [] then m0 else scans[|scans|-1].to
  }

  /** Each query is the batch after the one before it, answered by a node that had reached its end. */
  predicate Tiled(m0: int, scans: seq<Scan>) {
    scans == [] ||
    var last := scans[|scans|-1];
    && Tiled(m0, scans[..|scans|-1])
    && last.from == EndOf(m0, scans[..|scans|-1]) + 1
    && last.from <= last.to <= last.from + BATCH_SIZE
    && last.to <= last.head
  }

  ghost predicate TiledFrom(chain: Ledger<EventId>, m0: int, s: State) {
    && Tiled(m0, s.scans)
    && m0 <= s.mark == EndOf(m0, s.scans)
    && Enqueued(s.scans) == EventsIn(chain, m0 + 1, s.mark)
  }

  predicate AllPolls(steps: seq<Step>) {
    forall k :: 0 <= k < |steps| ==> steps[k].Polls?
  }

  lemma PollAppends(chain: Ledger<EventId>, m0: int, s: State, rpc: PollRpc)
    requires m0 <= s.mark && HonestAnswer(chain, s.mark, rpc) && ScanOf(s.mark, rpc).Some?
    ensures var q, events := Poll(s, rpc), ScanOf(s.mark, rpc).value.events;
            && EventsIn(chain, m0 + 1, q.mark) == EventsIn(chain, m0 + 1, s.mark) + events
            && Enqueued(q.scans) == Enqueued(s.scans) + events
  {
    var scan := ScanOf(s.mark, rpc).value;
    EnqueuedAppend(s.scans, scan);
    EventsSplit(chain, m0 + 1, s.mark, scan.to);
  }

  lemma TiledAppend(m0: int, scans: seq<Scan>, scan: Scan)
    requires Tiled(m0, scans) && scan.from == EndOf(m0, scans) + 1
    requires scan.from <= scan.to <= scan.from + BATCH_SIZE && scan.to <= scan.head
    ensures Tiled(m0, scans + [scan]) && EndOf(m0, scans + [scan]) == scan.to
  {
    assert (scans + [scan])[..|scans|] == scans;
  }

  lemma PollTiles(chain: Ledger<EventId>, m0: int, s: State, rpc: PollRpc)
    requires TiledFrom(chain, m0, s) && HonestAnswer(chain, s.mark, rpc)
    ensures TiledFrom(chain, m0, Poll(s, rpc))
  {
    if ScanOf(s.mark, rpc).Some? {
      TiledAppend(m0, s.scans, ScanOf(s.mark, rpc).value);
      PollAppends(chain, m0, s, rpc);
    }
  }

  /**
   Whatever heads are reported and whatever fails, the answered queries since the start are
   contiguous and cover exactly the blocks up to the mark, and the tasks enqueued are the events
   of those blocks in order.
   */
  lemma {:induction false} ExactTiling(chain: Ledger<EventId>, s: State, steps: seq<Step>)
    requires s.scans == [] && AllPolls(steps) && Honest(chain, s, steps)
    ensures TiledFrom(chain, s.mark, After(s, steps))
  {
    if steps != [] {
      var before := steps[..|steps|-1];
      ExactTiling(chain, s, before);
      PollTiles(chain, s.mark, After(s, before), steps[|steps|-1].rpc);
    }
  }

  /** The queries of a tiling are disjoint and in order, and lie between its mark and its end. */
  lemma {:induction false} TilesDisjoint(m0: int, scans: seq<Scan>, i: nat, j: nat)
    requires Tiled(m0, scans) && i <= j < |scans|
    ensures m0 < scans[i].from <= scans[i].to <= EndOf(m0, scans)
    ensures i < j ==> scans[i].to < scans[j].from
    decreases |scans|
  {
    var before := scans[..|scans|-1];
    if i < |before| {
      TilesDisjoint(m0, before, i, if j < |before| then j else i);
    } else if before != [] {
      TilesDisjoint(m0, before, |before|-1, |before|-1);
    }
  }

  // ---- crashes and restarts ----

  /** The stored mark never passes the one in memory, and no process starts before the configured block. */
  predicate MarkOrder(s: State) {
    && Max(s.start, 0) <= s.mark
    && (s.persisted.Some? ==> s.persisted.value <= s.mark)
  }

  lemma StepMarks(s: State, step: Step)
    requires MarkOrder(s)
    ensures var s' := Next(s, step);
            && MarkOrder(s') && s'.start == s.start
            && (s.persisted.Some? ==> s'.persisted.Some? && s.persisted.value <= s'.persisted.value)
            && s.scans <= s'.scans && |s'.scans| <= |s.scans| + 1
            && (forall k :: |s.scans| <= k < |s'.scans| ==> s'.scans[k].from == s.mark + 1)
            && (step.Polls? ==> s.mark <= s'.mark)
            && (!step.Polls? ==> s'.mark == Resume(s'.persisted, s.start))
            && (!step.Polls? && !(step.Dies? && step.marked) ==> s'.mark <= s.mark)
  {
  }

  /** A queue holds every event of a list, as often as it is listed. */
  predicate Covers(events: seq<EventId>, queue: seq<EventId>) {
    multiset(events) <= multiset(queue)
  }

  predicate Among(some: seq<EventId>, events: seq<EventId>) {
    forall e :: e in some ==> e in events
  }

  /** What holds in every state after a cold start at mark `m0`, when deaths have left some events unsent. */
  ghost predicate Recovered(chain: Ledger<EventId>, m0: int, s: State, unsent: seq<EventId>) {
    && MarkOrder(s)
    && m0 <= Resume(s.persisted, s.start)
    && Covers(EventsIn(chain, m0 + 1, s.mark), Enqueued(s.scans) + unsent)
    && Among(unsent, EventsIn(chain, m0 + 1, Resume(s.persisted, s.start)))
  }

  lemma EarlierEvents(chain: Ledger<EventId>, m0: int, mark: int, earlier: int)
    requires m0 <= earlier <= mark
    ensures multiset(EventsIn(chain, m0 + 1, earlier)) <= multiset(EventsIn(chain, m0 + 1, mark))
  {
    EventsSplit(chain, m0 + 1, earlier, mark);
  }

  lemma AppendToBoth(a: seq<EventId>, b: seq<EventId>, unsent: seq<EventId>, sent: seq<EventId>, more: seq<EventId>)
    requires Covers(a, b + unsent)
    ensures Covers(a + (sent + more), (b + sent) + (unsent + more))
  {
    assert multiset(a + (sent + more)) == multiset(a) + multiset(sent) + multiset(more);
    assert multiset((b + sent) + (unsent + more)) == multiset(b + unsent) + multiset(sent) + multiset(more);
  }

  /** A query sends some of its events and leaves the others unsent. */
  lemma ScanAppends(chain: Ledger<EventId>, m0: int, s: State, rpc: PollRpc, sent: seq<EventId>, more: seq<EventId>)
    requires m0 <= s.mark && HonestAnswer(chain, s.mark, rpc) && ScanOf(s.mark, rpc).Some?
    requires ScanOf(s.mark, rpc).value.events == sent + more
    ensures var scan := ScanOf(s.mark, rpc).value;
            && EventsIn(chain, m0 + 1, scan.to) == EventsIn(chain, m0 + 1, s.mark) + (sent + more)
            && Enqueued(s.scans + [scan.(events := sent)]) == Enqueued(s.scans) + sent
  {
    var scan := ScanOf(s.mark, rpc).value;
    EnqueuedAppend(s.scans, scan.(events := sent));
    EventsSplit(chain, m0 + 1, s.mark, scan.to);
  }

  lemma AppendSent(a: seq<EventId>, b: seq<EventId>, unsent: seq<EventId>, sent: seq<EventId>)
    requires Covers(a, b + unsent)
    ensures Covers(a + sent, (b + sent) + unsent)
  {
    assert multiset(a + sent) == multiset(a) + multiset(sent);
    assert multiset((b + sent) + unsent) == multiset(b + unsent) + multiset(sent);
  }

  lemma PollRecovers(chain: Ledger<EventId>, m0: int, s: State, unsent: seq<EventId>, rpc: PollRpc)
    requires Recovered(chain, m0, s, unsent) && HonestAnswer(chain, s.mark, rpc) && ScanOf(s.mark, rpc).Some?
    ensures Recovered(chain, m0, Poll(s, rpc), unsent)
  {
    var q := Poll(s, rpc);
    PollAppends(chain, m0, s, rpc);
    AppendSent(EventsIn(chain, m0 + 1, s.mark), Enqueued(s.scans), unsent, ScanOf(s.mark, rpc).value.events);
    LaterEvents(chain, m0, Resume(s.persisted, s.start), Resume(q.persisted, s.start), unsent);
  }

  lemma LaterEvents(chain: Ledger<EventId>, m0: int, mark: int, later: int, some: seq<EventId>)
    requires m0 <= mark <= later && Among(some, EventsIn(chain, m0 + 1, mark))
    ensures Among(some, EventsIn(chain, m0 + 1, later))
  {
    EventsSplit(chain, m0 + 1, mark, later);
  }

  lemma SentOrUnsent(before: seq<EventId>, events: seq<EventId>, queued: seq<EventId>, unsent: seq<EventId>,
                     sent: seq<EventId>, more: seq<EventId>)
    requires events == before + (sent + more) && Covers(before, queued + unsent) && Among(unsent, events)
    ensures Covers(events, (queued + sent) + (unsent + more))
    ensures Among(unsent + more, events)
  {
    AppendToBoth(before, queued, unsent, sent, more);
    forall e | e in unsent + more ensures e in events {
      if e in more {
        assert e in sent + more;
      }
    }
  }

  /** Where a death after storing the mark restarts: at the end of its query. */
  lemma MarkedDeath(s: State, step: Step)
    requires MarkOrder(s) && step.Dies? && step.marked && ScanOf(s.mark, step.rpc).Some?
    ensures var scan := ScanOf(s.mark, step.rpc).value;
            && Resume(Some(scan.to), s.start) == scan.to
            && Next(s, step) == s.(mark := scan.to, persisted := Some(scan.to),
                                   scans := s.scans + [scan.(events := Sent(scan, step.published))])
  {
  }

  lemma SentAndUnsent(s: State, step: Step)
    requires step.Dies? && step.marked && ScanOf(s.mark, step.rpc).Some?
    ensures ScanOf(s.mark, step.rpc).value.events ==
            Sent(ScanOf(s.mark, step.rpc).value, step.published) + UnsentBy(s, step)
  {
  }

  /** A query of which `more` was not sent, though its end was stored. */
  lemma MarkedScanRecovers(chain: Ledger<EventId>, m0: int, s: State, unsent: seq<EventId>, rpc: PollRpc,
                           sent: seq<EventId>, more: seq<EventId>, q: State)
    requires Recovered(chain, m0, s, unsent) && HonestAnswer(chain, s.mark, rpc) && ScanOf(s.mark, rpc).Some?
    requires ScanOf(s.mark, rpc).value.events == sent + more
    requires var scan := ScanOf(s.mark, rpc).value;
             && q.start == s.start && q.mark == scan.to && q.persisted == Some(scan.to)
             && q.scans == s.scans + [scan.(events := sent)] && Resume(q.persisted, q.start) == scan.to
    ensures Recovered(chain, m0, q, unsent + more)
  {
    var before, events := EventsIn(chain, m0 + 1, s.mark), EventsIn(chain, m0 + 1, q.mark);
    ScanAppends(chain, m0, s, rpc, sent, more);
    LaterEvents(chain, m0, Resume(s.persisted, s.start), q.mark, unsent);
    SentOrUnsent(before, events, Enqueued(s.scans), unsent, sent, more);
  }

  /** A death after the mark was stored: what it did not send is unsent for good. */
  lemma MarkedDeathRecovers(chain: Ledger<EventId>, m0: int, s: State, unsent: seq<EventId>, step: Step)
    requires Recovered(chain, m0, s, unsent) && step.Dies? && step.marked
    requires HonestAnswer(chain, s.mark, step.rpc) && ScanOf(s.mark, step.rpc).Some?
    ensures Recovered(chain, m0, Next(s, step), unsent + UnsentBy(s, step))
  {
    var sent := Sent(ScanOf(s.mark, step.rpc).value, step.published);
    SentAndUnsent(s, step);
    MarkedDeath(s, step);
    MarkedScanRecovers(chain, m0, s, unsent, step.rpc, sent, UnsentBy(s, step), Next(s, step));
  }

  /** Any other death or restart goes back to the stored mark and has only added events. */
  lemma SetbackRecovers(chain: Ledger<EventId>, m0: int, s: State, unsent: seq<EventId>, q: State)
    requires Recovered(chain, m0, s, unsent)
    requires MarkOrder(q) && q.start == s.start && q.persisted == s.persisted
    requires q.mark == Resume(s.persisted, s.start) <= s.mark
    requires s.scans <= q.scans && |q.scans| <= |s.scans| + 1
    ensures Recovered(chain, m0, q, unsent)
  {
    EarlierEvents(chain, m0, s.mark, q.mark);
    EnqueuedGrows(s, q);
    assert multiset(Enqueued(q.scans) + unsent) == multiset(Enqueued(q.scans)) + multiset(unsent);
    assert multiset(Enqueued(s.scans) + unsent) == multiset(Enqueued(s.scans)) + multiset(unsent);
  }

  lemma StepRecovers(chain: Ledger<EventId>, m0: int, s: State, unsent: seq<EventId>, step: Step)
    requires Recovered(chain, m0, s, unsent)
    requires step.Restarts? || HonestAnswer(chain, s.mark, step.rpc)
    ensures Recovered(chain, m0, Next(s, step), unsent + UnsentBy(s, step))
  {
    StepMarks(s, step);
    if step.Dies? && step.marked && ScanOf(s.mark, step.rpc).Some? {
      MarkedDeathRecovers(chain, m0, s, unsent, step);
    } else {
      assert unsent + UnsentBy(s, step) == unsent;
      if !step.Polls? {
        SetbackRecovers(chain, m0, s, unsent, Next(s, step));
      } else if ScanOf(s.mark, step.rpc).Some? {
        PollRecovers(chain, m0, s, unsent, step.rpc);
      }
    }
  }

  /**
   Every event after the cold start and up to the mark is enqueued at least as often as it occurs,
   however often the process dies, but for those a death left unsent after storing the mark.
   */
  lemma {:induction false} CrashRecovery(chain: Ledger<EventId>, s: State, steps: seq<Step>)
    requires s == Cold(s.start, s.persisted) && Honest(chain, s, steps)
    ensures Recovered(chain, s.mark, After(s, steps), Unsent(s, steps))
  {
    if steps == [] {
      assert EventsIn(chain, s.mark + 1, s.mark) == [];
    } else {
      var before := steps[..|steps|-1];
      CrashRecovery(chain, s, before);
      StepRecovers(chain, s.mark, After(s, before), Unsent(s, before), steps[|steps|-1]);
    }
  }

  lemma CoveredMember(events: seq<EventId>, queue: seq<EventId>, unsent: seq<EventId>, e: EventId)
    requires Covers(events, queue + unsent) && e in events
    ensures e in queue || e in unsent
  {
    assert e in multiset(events);
    assert e in multiset(queue + unsent);
    assert e in queue + unsent;
  }

  /**
   Exactly which events up to the mark never reach the queue: those a death left unsent after storing
   the mark, unless an earlier attempt at their block had sent them.
   */
  lemma LostExactly(chain: Ledger<EventId>, s: State, steps: seq<Step>, e: EventId)
    requires s == Cold(s.start, s.persisted) && Honest(chain, s, steps)
    requires e !in Enqueued(After(s, steps).scans)
    ensures e in EventsIn(chain, s.mark + 1, After(s, steps).mark) <==> e in Unsent(s, steps)
  {
    CrashRecovery(chain, s, steps);
    var q := After(s, steps);
    var unsent := Unsent(s, steps);
    if e in EventsIn(chain, s.mark + 1, q.mark) {
      CoveredMember(EventsIn(chain, s.mark + 1, q.mark), Enqueued(q.scans), unsent, e);
    }
    LaterEvents(chain, s.mark, Resume(q.persisted, q.start), q.mark, unsent);
  }

  /**
   While every event was enqueued once, one death loses an event exactly when it stored the mark and
   had not sent them all.
   */
  lemma DeathLosesExactly(chain: Ledger<EventId>, m0: int, s: State, step: Step)
    requires MarkOrder(s) && m0 <= Resume(s.persisted, s.start) && step.Dies?
    requires multiset(EventsIn(chain, m0 + 1, s.mark)) == multiset(Enqueued(s.scans))
    requires HonestAnswer(chain, s.mark, step.rpc) && ScanOf(s.mark, step.rpc).Some?
    ensures var q := Next(s, step);
            Covers(EventsIn(chain, m0 + 1, q.mark), Enqueued(q.scans)) <==>
            !step.marked || step.published >= |ScanOf(s.mark, step.rpc).value.events|
  {
    StepMarks(s, step);
    if step.marked {
      var scan := ScanOf(s.mark, step.rpc).value;
      var sent, more := Sent(scan, step.published), UnsentBy(s, step);
      SentAndUnsent(s, step);
      MarkedDeath(s, step);
      ScanAppends(chain, m0, s, step.rpc, sent, more);
      CoversAll(EventsIn(chain, m0 + 1, s.mark), Enqueued(s.scans), sent, more);
    } else {
      EarlierEvents(chain, m0, s.mark, Next(s, step).mark);
      EnqueuedGrows(s, Next(s, step));
    }
  }

  lemma CoversAll(a: seq<EventId>, b: seq<EventId>, sent: seq<EventId>, more: seq<EventId>)
    requires multiset(a) == multiset(b)
    ensures Covers(a + (sent + more), b + sent) <==> more == []
  {
    assert multiset(a + (sent + more)) == multiset(b + sent) + multiset(more);
    if more != [] {
      assert multiset(a + (sent + more))[more[0]] > multiset(b + sent)[more[0]];
    }
  }

  lemma EnqueuedGrows(p: State, q: State)
    requires p.scans <= q.scans && |q.scans| <= |p.scans| + 1
    ensures multiset(Enqueued(p.scans)) <= multiset(Enqueued(q.scans))
  {
    if |q.scans| == |p.scans| {
      assert q.scans == p.scans;
    } else {
      assert q.scans == p.scans + [q.scans[|p.scans|]];
      EnqueuedAppend(p.scans, q.scans[|p.scans|]);
      assert multiset(Enqueued(q.scans)) == multiset(Enqueued(p.scans)) + multiset(q.scans[|p.scans|].events);
    }
  }

  /** Once a mark is stored, no block up to it is ever queried again, so repeats come only from above it. */
  lemma {:induction false} RepeatsAboveStoredMark(s: State, steps: seq<Step>)
    requires MarkOrder(s)
    ensures var s' := After(s, steps);
            && MarkOrder(s') && s.scans <= s'.scans
            && (s.persisted.Some? ==> s'.persisted.Some? && s.persisted.value <= s'.persisted.value)
            && (s.persisted.Some? ==> forall k :: |s.scans| <= k < |s'.scans| ==> s'.scans[k].from > s.persisted.value)
  {
    if steps != [] {
      var n := |steps| - 1;
      RepeatsAboveStoredMark(s, steps[..n]);
      StepMarks(After(s, steps[..n]), steps[n]);
    }
  }

  /**
   A store that takes effect is what a restart comes back to: after an answered poll that stored its
   mark, a restart changes nothing, and every query of the steps that follow starts above the mark.
   */
  lemma StoreIsResumed(s: State, steps: seq<Step>, rpc: PollRpc, more: seq<Step>)
    requires MarkOrder(s) && rpc.persist != NotStored
    requires ScanOf(After(s, steps).mark, rpc).Some?
    ensures var stored := steps + [Polls(rpc)];
            var v := After(s, stored);
            && v.persisted == Some(v.mark) && v.mark == ScanOf(After(s, steps).mark, rpc).value.to
            && After(s, stored + [Restarts]) == v
            && After(s, (stored + [Restarts]) + more).persisted.Some?
            && After(s, (stored + [Restarts]) + more).persisted.value >= v.mark
            && forall k :: |v.scans| <= k < |After(s, (stored + [Restarts]) + more).scans| ==>
                 After(s, (stored + [Restarts]) + more).scans[k].from > v.mark
  {
    var stored := steps + [Polls(rpc)];
    var v := After(s, stored);
    RepeatsAboveStoredMark(s, steps);
    StepMarks(After(s, steps), Polls(rpc));
    assert stored[..|steps|] == steps;
    assert (stored + [Restarts])[..|stored|] == stored;
    AfterConcat(s, stored + [Restarts], more);
    RepeatsAboveStoredMark(v, more);
  }

  lemma {:induction false} AfterConcat(s: State, a: seq<Step>, b: seq<Step>)
    ensures After(s, a + b) == After(After(s, a), b)
    decreases |b|
  {
    if b == [] {
      assert a + b == a;
    } else {
      assert (a + b)[..|a + b|-1] == a + b[..|b|-1];
      AfterConcat(s, a, b[..|b|-1]);
    }
  }

  /** A first start scans from the block after the configured one: that block itself is never scanned. */
  lemma StartBlockSkipped(s: State, steps: seq<Step>, k: nat)
    requires s == Cold(s.start, None) && k < |After(s, steps).scans|
    ensures After(s, steps).scans[k].from > Max(s.start, 0)
  {
    FromAfterStart(s, steps);
  }

  lemma {:induction false} FromAfterStart(s: State, steps: seq<Step>)
    requires s == Cold(s.start, None)
    ensures var s' := After(s, steps);
            && MarkOrder(s') && s'.start == s.start
            && forall k :: 0 <= k < |s'.scans| ==> s'.scans[k].from > Max(s.start, 0)
  {
    if steps != [] {
      var n := |steps| - 1;
      FromAfterStart(s, steps[..n]);
      StepMarks(After(s, steps[..n]), steps[n]);
    }
  }

  // ---- batching refines one query ----

  /** A poll of a node at a fixed final height that answers. */
  predicate Answers(mark: int, target: int, step: Step) {
    step.Polls? && step.rpc.lastBlock.Returned? && step.rpc.confirmations.Returned?
    && Target(step.rpc) == target && (mark < target ==> ScanOf(mark, step.rpc).Some?)
  }

  predicate AllAnswer(s: State, target: int, steps: seq<Step>) {
    steps == [] ||
    var before := steps[..|steps|-1];
    AllAnswer(s, target, before) && Answers(After(s, before).mark, target, steps[|steps|-1])
  }

  lemma {:induction false} MarkAfterPolls(s: State, target: int, steps: seq<Step>)
    requires s.mark <= target && AllAnswer(s, target, steps)
    ensures After(s, steps).mark == Min(target, s.mark + (BATCH_SIZE + 1) * |steps|)
  {
    if steps != [] {
      MarkAfterPolls(s, target, steps[..|steps|-1]);
    }
  }

  lemma EnoughBatches(blocks: nat, polls: nat)
    ensures (BATCH_SIZE + 1) * polls >= blocks <==> polls >= Ceil(blocks, BATCH_SIZE + 1)
  {
  }

  /** Exactly ceil((target - mark) / 501) answered polls reach the target. */
  lemma PollsNeeded(s: State, target: int, steps: seq<Step>)
    requires s.mark <= target && AllAnswer(s, target, steps)
    ensures After(s, steps).mark == target <==> |steps| >= Ceil(target - s.mark, BATCH_SIZE + 1)
  {
    MarkAfterPolls(s, target, steps);
    EnoughBatches(target - s.mark, |steps|);
  }

  /** The watcher's predecessor: one unbounded query from the mark to the target. */
  function LegacyScan(chain: Ledger<EventId>, mark: int, target: int): (int, seq<EventId>) {
    if target <= mark then (mark, []) else (target, EventsIn(chain, mark + 1, target))
  }

  lemma {:induction false} AnswersArePolls(s: State, target: int, steps: seq<Step>)
    requires AllAnswer(s, target, steps)
    ensures AllPolls(steps)
  {
    if steps != [] {
      AnswersArePolls(s, target, steps[..|steps|-1]);
    }
  }

  /** Batched polls that reach the target yield the mark and the event sequence of the single query. */
  lemma BatchingRefinesOneScan(chain: Ledger<EventId>, s: State, target: int, steps: seq<Step>)
    requires s.scans == [] && s.mark <= target && AllAnswer(s, target, steps) && Honest(chain, s, steps)
    requires |steps| >= Ceil(target - s.mark, BATCH_SIZE + 1)
    ensures (After(s, steps).mark, Enqueued(After(s, steps).scans)) == LegacyScan(chain, s.mark, target)
  {
    PollsNeeded(s, target, steps);
    AnswersArePolls(s, target, steps);
    ExactTiling(chain, s, steps);
  }
}
