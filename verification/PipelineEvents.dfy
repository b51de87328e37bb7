/** Events over whole runs: none lost, none duplicated without a fault, none finished before it is settled. */
module PipelineEvents {
  import opened Wrappers
  import opened Types
  import opened SenderSpec
  import opened SenderOutcomes
  import opened Pipeline
  import SenderMain
  import Receiptor

  function TaskEvents(q: seq<EventTask>): seq<EventId> {
    seq(|q|, i requires 0 <= i < |q| => q[i].event)
  }

  function ReceiptEvents(q: seq<ReceiptTask>): seq<EventId> {
    seq(|q|, i requires 0 <= i < |q| => q[i].eventTask.event)
  }

  /** Every copy of every event, wherever it is. */
  function Copies(w: World): multiset<EventId> {
    multiset(TaskEvents(w.senderQ)) + multiset(ReceiptEvents(w.receiptQ))
    + multiset(w.finished) + multiset(w.dropped) + multiset(w.untracked)
  }

  lemma TaskEventsConcat(a: seq<EventTask>, b: seq<EventTask>)
    ensures multiset(TaskEvents(a + b)) == multiset(TaskEvents(a)) + multiset(TaskEvents(b))
  {
    assert TaskEvents(a + b) == TaskEvents(a) + TaskEvents(b);
  }

  lemma ReceiptEventsConcat(a: seq<ReceiptTask>, b: seq<ReceiptTask>)
    ensures multiset(ReceiptEvents(a + b)) == multiset(ReceiptEvents(a)) + multiset(ReceiptEvents(b))
  {
    assert ReceiptEvents(a + b) == ReceiptEvents(a) + ReceiptEvents(b);
  }

  lemma TaskEventsWithout(q: seq<EventTask>, i: nat)
    requires i < |q|
    ensures multiset(TaskEvents(Without(q, i))) + multiset{q[i].event} == multiset(TaskEvents(q))
  {
    var e := TaskEvents(q);
    assert e == e[..i] + [e[i]] + e[i+1..];
    assert TaskEvents(Without(q, i)) == e[..i] + e[i+1..];
  }

  lemma ReceiptEventsWithout(q: seq<ReceiptTask>, i: nat)
    requires i < |q|
    ensures multiset(ReceiptEvents(Without(q, i))) + multiset{q[i].eventTask.event} == multiset(ReceiptEvents(q))
  {
    var e := ReceiptEvents(q);
    assert e == e[..i] + [e[i]] + e[i+1..];
    assert ReceiptEvents(Without(q, i)) == e[..i] + e[i+1..];
  }

  // ---- one handler ----

  /** The copies of its event that a completed sender run leaves behind. */
  function HandedOn(task: EventTask, r: SenderRun): nat {
    var fate := SenderMain.Settle(task, r.out);
    |r.receipts| + |SenderMain.Republished(fate)| + Recorded(r, task)
  }

  lemma SubmitReceipts(task: EventTask, nonce: nat, rpc: SenderRpc)
    ensures var s := Submit(task, nonce, rpc);
            && |s.receipts| <= 1
            && (forall t :: t in s.receipts ==> t.eventTask == task)
            && (s.out == Returned(Success) ==> s.receipts != [])
            && s.out != Returned(Skipped) && s.out != Returned(DummyTx)
  {
  }

  /** A run publishes at most one receipt task; a success has published one, a skip none. */
  lemma RunReceipts(task: EventTask, c: Cached, rpc: SenderRpc)
    ensures var r := SenderSpec.Run(task, c, rpc);
            && |r.receipts| <= 1
            && (forall t :: t in r.receipts ==> t.eventTask == task)
            && (r.out == Returned(Success) || r.out == Returned(DummyTx) ==> r.receipts != [])
            && (r.out == Returned(Skipped) ==> r.receipts == [])
  {
    var n := ChooseNonce(task, c, rpc);
    if n.Returned? {
      SubmitReceipts(task, n.value, rpc);
    }
  }

  /** A run never swallows its event; it leaves two copies exactly when it tracks it and does not ack the message. */
  lemma RunHandsOn(task: EventTask, c: Cached, rpc: SenderRpc)
    ensures var r := SenderSpec.Run(task, c, rpc);
            && 1 <= HandedOn(task, r) <= 2
            && (HandedOn(task, r) == 2 <==> Tracks(task, c, rpc) && !Acks(task, c, rpc))
  {
    RunReceipts(task, c, rpc);
    RunExactly(task, c, rpc);
  }

  function Repeat(e: EventId, n: nat): (m: multiset<EventId>) {
    multiset{}[e := n]
  }

  lemma ReceiptsOf(q: seq<ReceiptTask>, e: EventId)
    requires forall t :: t in q ==> t.eventTask.event == e
    ensures multiset(ReceiptEvents(q)) == Repeat(e, |q|)
  {
    if q != [] {
      var rest := q[..|q|-1];
      assert q == rest + [q[|q|-1]];
      ReceiptsOf(rest, e);
      ReceiptEventsConcat(rest, [q[|q|-1]]);
      assert ReceiptEvents([q[|q|-1]]) == [e];
    }
  }

  lemma RepublishedOf(task: EventTask, out: Outcome<SendResult>)
    ensures var again := SenderMain.Republished(SenderMain.Settle(task, out));
            multiset(TaskEvents(again)) == Repeat(task.event, |again|)
  {
    var again := SenderMain.Republished(SenderMain.Settle(task, out));
    if again != [] {
      assert TaskEvents(again) == [task.event];
    }
  }

  /** Outside the queues a completed run records its event at most once. */
  function Recorded(r: SenderRun, task: EventTask): nat {
    if r.out == Returned(Skipped) || SenderMain.Settle(task, r.out).Nacked? || ImportedUntracked(r) then 1 else 0
  }

  lemma EffectRecords(w: World, i: nat, r: SenderRun)
    requires i < |w.senderQ|
    ensures var w' := SendEffects(w, i, r);
            multiset(w'.finished) + multiset(w'.dropped) + multiset(w'.untracked) ==
            multiset(w.finished) + multiset(w.dropped) + multiset(w.untracked)
            + Repeat(w.senderQ[i].event, Recorded(r, w.senderQ[i]))
  {
  }

  lemma EffectQueues(w: World, i: nat, r: SenderRun)
    requires i < |w.senderQ|
    requires forall t :: t in r.receipts ==> t.eventTask == w.senderQ[i]
    ensures var task := w.senderQ[i];
            var again := SenderMain.Republished(SenderMain.Settle(task, r.out));
            var w' := SendEffects(w, i, r);
            && multiset(TaskEvents(w'.senderQ)) + Repeat(task.event, 1) ==
               multiset(TaskEvents(w.senderQ)) + Repeat(task.event, |again|)
            && multiset(ReceiptEvents(w'.receiptQ)) ==
               multiset(ReceiptEvents(w.receiptQ)) + Repeat(task.event, |r.receipts|)
  {
    var task := w.senderQ[i];
    var again := SenderMain.Republished(SenderMain.Settle(task, r.out));
    TaskEventsWithout(w.senderQ, i);
    TaskEventsConcat(Without(w.senderQ, i), again);
    RepublishedOf(task, r.out);
    ReceiptEventsConcat(w.receiptQ, r.receipts);
    ReceiptsOf(r.receipts, task.event);
  }

  lemma RepeatAdds(e: EventId, a: nat, b: nat)
    ensures Repeat(e, a) + Repeat(e, b) == Repeat(e, a + b)
  {
  }

  lemma EffectCopies(w: World, i: nat, r: SenderRun)
    requires i < |w.senderQ|
    requires forall t :: t in r.receipts ==> t.eventTask == w.senderQ[i]
    ensures var task := w.senderQ[i];
            Copies(SendEffects(w, i, r)) + Repeat(task.event, 1) == Copies(w) + Repeat(task.event, HandedOn(task, r))
  {
    var task := w.senderQ[i];
    var again := SenderMain.Republished(SenderMain.Settle(task, r.out));
    EffectQueues(w, i, r);
    EffectRecords(w, i, r);
    RepeatAdds(task.event, |r.receipts|, |again|);
    RepeatAdds(task.event, |r.receipts| + |again|, Recorded(r, task));
    var w' := SendEffects(w, i, r);
    SumOfParts(multiset(TaskEvents(w.senderQ)), multiset(ReceiptEvents(w.receiptQ)),
               multiset(w.finished) + multiset(w.dropped) + multiset(w.untracked),
               multiset(TaskEvents(w'.senderQ)), multiset(ReceiptEvents(w'.receiptQ)),
               multiset(w'.finished) + multiset(w'.dropped) + multiset(w'.untracked),
               Repeat(task.event, 1), Repeat(task.event, |again|), Repeat(task.event, |r.receipts|),
               Repeat(task.event, Recorded(r, task)));
    CopiesInParts(w);
    CopiesInParts(w');
  }

  lemma CopiesInParts(w: World)
    ensures Copies(w) == multiset(TaskEvents(w.senderQ)) + multiset(ReceiptEvents(w.receiptQ))
                         + (multiset(w.finished) + multiset(w.dropped) + multiset(w.untracked))
    ensures Copies(w) == multiset(ReceiptEvents(w.receiptQ)) + multiset(TaskEvents(w.senderQ))
                         + (multiset(w.finished) + multiset(w.dropped) + multiset(w.untracked))
  {
  }

  lemma SumOfParts(s: multiset<EventId>, r: multiset<EventId>, f: multiset<EventId>,
                   s': multiset<EventId>, r': multiset<EventId>, f': multiset<EventId>,
                   one: multiset<EventId>, x: multiset<EventId>, y: multiset<EventId>, z: multiset<EventId>)
    requires s' + one == s + x && r' == r + y && f' == f + z
    ensures s' + r' + f' + one == s + r + f + (y + x + z)
  {
    assert s' + r' + f' + one == (s' + one) + r' + f';
  }

  /** A completed send replaces the consumed copy by the copies its run hands on. */
  lemma SendCopies(w: World, s: Step)
    requires Enabled(w, s) && s.action.Send? && s.action.fault.Completes?
    ensures var task := w.senderQ[s.action.i];
            var r := SenderSpec.Run(task, w.cached, s.action.senderRpc);
            Copies(Next(w, s)) + Repeat(task.event, 1) == Copies(w) + Repeat(task.event, HandedOn(task, r))
  {
    var task := w.senderQ[s.action.i];
    RunReceipts(task, w.cached, s.action.senderRpc);
    EffectCopies(w, s.action.i, SenderSpec.Run(task, w.cached, s.action.senderRpc));
  }

  /** A crash adds to the copies whatever was published before it: the message itself is redelivered. */
  lemma SendCrashCopies(w: World, s: Step)
    requires Enabled(w, s) && s.action.Send? && s.action.fault.CrashAt?
    ensures var task := w.senderQ[s.action.i];
            var r := SenderSpec.Run(task, w.cached, s.action.senderRpc);
            var again := SenderMain.Republished(SenderMain.Settle(task, r.out));
            var stage := s.action.fault.stage;
            Copies(Next(w, s)) == Copies(w) + Repeat(task.event, if stage >= 1 then |r.receipts| else 0)
                                  + Repeat(task.event, if stage >= 3 then |again| else 0)
  {
    var Send(i, rpc, CrashAt(stage)) := s.action;
    var task := w.senderQ[i];
    RunReceipts(task, w.cached, rpc);
    var r := SenderSpec.Run(task, w.cached, rpc);
    PublishedCopies(w, task.event, if stage >= 1 then r.receipts else [],
                    if stage >= 3 then SenderMain.Republished(SenderMain.Settle(task, r.out)) else []);
    PublishedCopies(w, task.event, [], []);
    SameCopies(Next(w, s), w.(receiptQ := Next(w, s).receiptQ, senderQ := Next(w, s).senderQ));
  }

  lemma SameCopies(v: World, w: World)
    requires v.senderQ == w.senderQ && v.receiptQ == w.receiptQ
    requires v.finished == w.finished && v.dropped == w.dropped && v.untracked == w.untracked
    ensures Copies(v) == Copies(w)
  {
  }

  /** Publishing tasks of one event adds so many copies of it. */
  lemma PublishedCopies(w: World, e: EventId, receipts: seq<ReceiptTask>, tasks: seq<EventTask>)
    requires |receipts| <= 1 && |tasks| <= 1
    requires forall t :: t in receipts ==> t.eventTask.event == e
    requires forall t :: t in tasks ==> t.event == e
    ensures Copies(w.(receiptQ := w.receiptQ + receipts, senderQ := w.senderQ + tasks)) ==
            Copies(w) + Repeat(e, |receipts|) + Repeat(e, |tasks|)
  {
    TaskEventsConcat(w.senderQ, tasks);
    ReceiptEventsConcat(w.receiptQ, receipts);
    ReceiptsOf(receipts, e);
    if tasks != [] {
      assert TaskEvents(tasks) == [e];
    }
    assert multiset(TaskEvents(tasks)) == Repeat(e, |tasks|);
  }

  /** The copies of its event that a completed receiptor run leaves behind. */
  function PollHandedOn(r: Receiptor.ReceiptorRun): nat {
    |r.resent| + if Receiptor.Settle(r.verdict).Dropped? then 0 else 1
  }

  lemma PollEffectQueues(w: World, j: nat, r: Receiptor.ReceiptorRun)
    requires j < |w.receiptQ| && |r.resent| <= 1
    requires forall t :: t in r.resent ==> t.event == w.receiptQ[j].eventTask.event
    ensures var e := w.receiptQ[j].eventTask.event;
            var fate := Receiptor.Settle(r.verdict);
            var w' := PollEffects(w, j, r);
            && multiset(TaskEvents(w'.senderQ)) == multiset(TaskEvents(w.senderQ)) + Repeat(e, |r.resent|)
            && multiset(ReceiptEvents(w'.receiptQ)) + Repeat(e, 1) ==
               multiset(ReceiptEvents(w.receiptQ)) + Repeat(e, if fate.Acked? || fate.Dropped? then 0 else 1)
  {
    var e := w.receiptQ[j].eventTask.event;
    ReceiptEventsWithout(w.receiptQ, j);
    TaskEventsConcat(w.senderQ, r.resent);
    if r.resent != [] {
      assert TaskEvents(r.resent) == [e];
    }
  }

  lemma PollEffectCopies(w: World, j: nat, r: Receiptor.ReceiptorRun)
    requires j < |w.receiptQ| && |r.resent| <= 1
    requires forall t :: t in r.resent ==> t.event == w.receiptQ[j].eventTask.event
    ensures var e := w.receiptQ[j].eventTask.event;
            Copies(PollEffects(w, j, r)) + Repeat(e, 1) == Copies(w) + Repeat(e, PollHandedOn(r))
  {
    var e := w.receiptQ[j].eventTask.event;
    var fate := Receiptor.Settle(r.verdict);
    var stays := if fate.Acked? || fate.Dropped? then 0 else 1;
    var done := if fate.Acked? then 1 else 0;
    var w' := PollEffects(w, j, r);
    PollEffectQueues(w, j, r);
    RepeatAdds(e, |r.resent|, stays);
    RepeatAdds(e, |r.resent| + stays, done);
    assert multiset(w'.finished) + multiset(w'.dropped) + multiset(w'.untracked) ==
           multiset(w.finished) + multiset(w.dropped) + multiset(w.untracked) + Repeat(e, done);
    SumOfParts(multiset(ReceiptEvents(w.receiptQ)), multiset(TaskEvents(w.senderQ)),
               multiset(w.finished) + multiset(w.dropped) + multiset(w.untracked),
               multiset(ReceiptEvents(w'.receiptQ)), multiset(TaskEvents(w'.senderQ)),
               multiset(w'.finished) + multiset(w'.dropped) + multiset(w'.untracked),
               Repeat(e, 1), Repeat(e, stays), Repeat(e, |r.resent|), Repeat(e, done));
    CopiesInParts(w);
    CopiesInParts(w');
  }

  lemma PollCopies(w: World, s: Step)
    requires Enabled(w, s) && s.action.Poll? && s.action.fault.Completes?
    ensures var task := w.receiptQ[s.action.j];
            var r := Receiptor.RunSpec(task, w.cfg, s.action.receiptorRpc);
            Copies(Next(w, s)) + Repeat(task.eventTask.event, 1) ==
            Copies(w) + Repeat(task.eventTask.event, PollHandedOn(r))
  {
    var task := w.receiptQ[s.action.j];
    var r := Receiptor.RunSpec(task, w.cfg, s.action.receiptorRpc);
    PollEffectCopies(w, s.action.j, r);
    SameCopies(Next(w, s), PollEffects(w, s.action.j, r));
  }

  lemma PollCrashCopies(w: World, s: Step)
    requires Enabled(w, s) && s.action.Poll? && s.action.fault.CrashAt?
    ensures var task := w.receiptQ[s.action.j];
            var r := Receiptor.RunSpec(task, w.cfg, s.action.receiptorRpc);
            var stage := s.action.fault.stage;
            var delayed := stage >= 2 && Receiptor.Settle(r.verdict).Retried?;
            Copies(Next(w, s)) == Copies(w) + Repeat(task.eventTask.event, if delayed then 1 else 0)
                                  + Repeat(task.eventTask.event, if stage >= 1 then |r.resent| else 0)
  {
    var Poll(j, rpc, CrashAt(stage)) := s.action;
    var task := w.receiptQ[j];
    var r := Receiptor.RunSpec(task, w.cfg, rpc);
    PublishedCopies(w, task.eventTask.event,
                    if stage >= 2 && Receiptor.Settle(r.verdict).Retried? then [task] else [],
                    if stage >= 1 then r.resent else []);
    SameCopies(Next(w, s), w.(receiptQ := Next(w, s).receiptQ, senderQ := Next(w, s).senderQ));
  }

  lemma RepeatCancels(before: multiset<EventId>, after: multiset<EventId>, e: EventId, n: nat)
    requires after + Repeat(e, 1) == before + Repeat(e, n)
    ensures n >= 1 ==> before <= after
    ensures before == after <==> n == 1
  {
    assert forall x :: x != e ==> (after + Repeat(e, 1))[x] == after[x] && (before + Repeat(e, n))[x] == before[x];
    assert (after + Repeat(e, 1))[e] == after[e] + 1;
    assert (before + Repeat(e, n))[e] == before[e] + n;
  }

  lemma WatchCopies(w: World, s: Step)
    requires Enabled(w, s) && s.action.Watch?
    ensures Copies(Next(w, s)) == Copies(w) + multiset{s.action.task.event}
  {
    TaskEventsConcat(w.senderQ, [s.action.task]);
    assert TaskEvents([s.action.task]) == [s.action.task.event];
  }

  // ---- exactly when an event is duplicated ----

  /**
   A sender leaves a second copy: it completes with a receipt task out and the message not
   acknowledged, or dies with a receipt task out or the message requeued.
   */
  predicate SendDuplicates(task: EventTask, c: Cached, rpc: SenderRpc, fault: Fault) {
    match fault
    case Completes => Tracks(task, c, rpc) && !Acks(task, c, rpc)
    case CrashAt(stage) =>
      || (stage >= 1 && Tracks(task, c, rpc))
      || (stage >= 3 && !Acks(task, c, rpc) && !Drops(task, c, rpc))
  }

  /**
   A receiptor leaves a second copy: the confirmation of its resend is lost, or it dies with the
   event resent or the message put into a delay queue.
   */
  predicate PollDuplicates(task: ReceiptTask, cfg: Receiptor.Config, rpc: Receiptor.ReceiptorRpc, fault: Fault) {
    var resends := Receiptor.Expired(task, cfg, rpc) || Receiptor.Reverted(rpc);
    match fault
    case Completes => resends && rpc.delivery.DeliveredThenRejected?
    case CrashAt(stage) =>
      || (stage >= 1 && resends && !rpc.delivery.Rejected?)
      || (stage >= 2 && rpc.receipt.Returned?
          && (if resends then !rpc.delivery.Delivered? else !Receiptor.Confirmed(cfg, rpc)))
  }

  predicate Duplicates(w: World, s: Step)
    requires Enabled(w, s)
  {
    match s.action
    case Send(i, rpc, fault) => SendDuplicates(w.senderQ[i], w.cached, rpc, fault)
    case Poll(j, rpc, fault) => PollDuplicates(w.receiptQ[j], w.cfg, rpc, fault)
    case Watch(_) => false
    case Idle => false
  }

  function NewEvents(s: Step): multiset<EventId> {
    if s.action.Watch? then multiset{s.action.task.event} else multiset{}
  }

  lemma SendCompletesExactly(w: World, s: Step)
    requires Enabled(w, s) && s.action.Send? && s.action.fault.Completes?
    ensures Copies(w) <= Copies(Next(w, s))
    ensures Copies(Next(w, s)) == Copies(w) <==>
            !SendDuplicates(w.senderQ[s.action.i], w.cached, s.action.senderRpc, s.action.fault)
  {
    var task := w.senderQ[s.action.i];
    var n := HandedOn(task, SenderSpec.Run(task, w.cached, s.action.senderRpc));
    RunHandsOn(task, w.cached, s.action.senderRpc);
    SendCopies(w, s);
    RepeatCancels(Copies(w), Copies(Next(w, s)), task.event, n);
  }

  lemma RunRequeues(task: EventTask, c: Cached, rpc: SenderRpc)
    ensures var r := SenderSpec.Run(task, c, rpc);
            var again := SenderMain.Republished(SenderMain.Settle(task, r.out));
            && (|r.receipts| == 0 <==> !Tracks(task, c, rpc))
            && (|again| == 0 <==> Acks(task, c, rpc) || Drops(task, c, rpc))
  {
    RunExactly(task, c, rpc);
  }

  lemma SendDiesExactly(w: World, s: Step)
    requires Enabled(w, s) && s.action.Send? && s.action.fault.CrashAt?
    ensures Copies(w) <= Copies(Next(w, s))
    ensures Copies(Next(w, s)) == Copies(w) <==>
            !SendDuplicates(w.senderQ[s.action.i], w.cached, s.action.senderRpc, s.action.fault)
  {
    var task := w.senderQ[s.action.i];
    var r := SenderSpec.Run(task, w.cached, s.action.senderRpc);
    var a := if s.action.fault.stage >= 1 then |r.receipts| else 0;
    var b := if s.action.fault.stage >= 3 then |SenderMain.Republished(SenderMain.Settle(task, r.out))| else 0;
    RunRequeues(task, w.cached, s.action.senderRpc);
    SendCrashCopies(w, s);
    RepeatsNothing(Copies(w), task.event, a, b);
  }

  /** What a receiptor run leaves of its message, read off the answers. */
  lemma PollExactly(task: ReceiptTask, cfg: Receiptor.Config, rpc: Receiptor.ReceiptorRpc)
    ensures var r := Receiptor.RunSpec(task, cfg, rpc);
            var resends := Receiptor.Expired(task, cfg, rpc) || Receiptor.Reverted(rpc);
            && 1 <= PollHandedOn(r)
            && (PollHandedOn(r) == 1 <==> !(resends && rpc.delivery.DeliveredThenRejected?))
            && |r.resent| == (if resends && !rpc.delivery.Rejected? then 1 else 0)
            && (Receiptor.Settle(r.verdict).Retried? <==>
                  && rpc.receipt.Returned?
                  && (if resends then !rpc.delivery.Delivered? else !Receiptor.Confirmed(cfg, rpc)))
  {
  }

  lemma PollDuplicatesExactly(w: World, s: Step)
    requires Enabled(w, s) && s.action.Poll?
    ensures Copies(w) <= Copies(Next(w, s))
    ensures Copies(Next(w, s)) == Copies(w) <==> !Duplicates(w, s)
  {
    var Poll(j, rpc, fault) := s.action;
    var task := w.receiptQ[j];
    var r := Receiptor.RunSpec(task, w.cfg, rpc);
    PollExactly(task, w.cfg, rpc);
    if fault.Completes? {
      PollCopies(w, s);
      RepeatCancels(Copies(w), Copies(Next(w, s)), task.eventTask.event, PollHandedOn(r));
    } else {
      PollCrashCopies(w, s);
      RepeatsNothing(Copies(w), task.eventTask.event,
                     if fault.stage >= 2 && Receiptor.Settle(r.verdict).Retried? then 1 else 0,
                     if fault.stage >= 1 then |r.resent| else 0);
    }
  }

  lemma RepeatsNothing(before: multiset<EventId>, e: EventId, a: nat, b: nat)
    ensures before + Repeat(e, a) + Repeat(e, b) == before <==> a == 0 && b == 0
  {
    assert (before + Repeat(e, a) + Repeat(e, b))[e] == before[e] + a + b;
  }

  /** Exactly when a step makes a copy of an event: read off the answers of the calls and the point of a crash. */
  lemma DuplicatedExactly(w: World, s: Step)
    requires Enabled(w, s)
    ensures Copies(w) + NewEvents(s) <= Copies(Next(w, s))
    ensures Copies(Next(w, s)) == Copies(w) + NewEvents(s) <==> !Duplicates(w, s)
  {
    match s.action
    case Watch(_) => WatchCopies(w, s);
    case Idle => SameCopies(Next(w, s), w);
    case Poll(_, _, _) => PollDuplicatesExactly(w, s);
    case Send(_, _, fault) => if fault.Completes? { SendCompletesExactly(w, s); } else { SendDiesExactly(w, s); }
  }

  // ---- runs ----

  lemma StepEnqueues(w: World, s: Step)
    requires Enabled(w, s)
    ensures multiset(Next(w, s).enqueued) == multiset(w.enqueued) + NewEvents(s)
  {
  }

  predicate EverDuplicates(w: World, steps: seq<Step>)
    requires ValidRun(w, steps)
    decreases |steps|
  {
    steps != [] && (Duplicates(w, steps[0]) || EverDuplicates(Next(w, steps[0]), steps[1..]))
  }

  lemma NothingHides(enqueued: multiset<EventId>, before: multiset<EventId>, more: multiset<EventId>,
                     after: multiset<EventId>)
    requires enqueued <= before && before + more <= after
    ensures enqueued + more <= after
    ensures enqueued + more == after <==> enqueued == before && after == before + more
  {
    if enqueued + more == after {
      assert forall e :: enqueued[e] + more[e] == after[e] && enqueued[e] <= before[e];
    }
  }

  /**
   Never lost: with exceptions and crashes at any point, every copy of an enqueued event is in
   flight, finished, or given up for a block gas limit or an untracked import.
   */
  lemma {:induction false} NeverLost(w: World, steps: seq<Step>)
    requires ValidRun(w, steps) && multiset(w.enqueued) <= Copies(w)
    ensures multiset(After(w, steps).enqueued) <= Copies(After(w, steps))
    decreases |steps|
  {
    if steps != [] {
      var w' := Next(w, steps[0]);
      DuplicatedExactly(w, steps[0]);
      StepEnqueues(w, steps[0]);
      NothingHides(multiset(w.enqueued), Copies(w), NewEvents(steps[0]), Copies(w'));
      NeverLost(w', steps[1..]);
    }
  }

  /** Exactly one copy: after any run the copies are the enqueued events exactly when no step made one too many. */
  lemma {:induction false} ExactlyOneCopy(w: World, steps: seq<Step>)
    requires ValidRun(w, steps) && multiset(w.enqueued) <= Copies(w)
    ensures multiset(After(w, steps).enqueued) == Copies(After(w, steps)) <==>
            multiset(w.enqueued) == Copies(w) && !EverDuplicates(w, steps)
    decreases |steps|
  {
    if steps != [] {
      var w' := Next(w, steps[0]);
      DuplicatedExactly(w, steps[0]);
      StepEnqueues(w, steps[0]);
      NothingHides(multiset(w.enqueued), Copies(w), NewEvents(steps[0]), Copies(w'));
      ExactlyOneCopy(w', steps[1..]);
    }
  }

  /** No publish loses its confirmation, no handler dies, and neither the cache nor the lock fails after a publish. */
  predicate Reliable(s: Step) {
    match s.action
    case Watch(_) => true
    case Idle => true
    case Send(_, rpc, fault) =>
      fault.Completes? && rpc.updateRead && rpc.unlocked && !rpc.delivery.DeliveredThenRejected?
    case Poll(_, rpc, fault) => fault.Completes? && !rpc.delivery.DeliveredThenRejected?
  }

  /** Without such faults nothing is ever duplicated. */
  lemma {:induction false} ReliableNeverDuplicates(w: World, steps: seq<Step>)
    requires ValidRun(w, steps)
    requires forall i :: 0 <= i < |steps| ==> Reliable(steps[i])
    ensures !EverDuplicates(w, steps)
    decreases |steps|
  {
    if steps != [] {
      assert Reliable(steps[0]);
      ReliableNeverDuplicates(Next(w, steps[0]), steps[1..]);
    }
  }

  /** An event enqueued once is in exactly one of the five places, and there once. */
  lemma InOnePlace(w: World, steps: seq<Step>, e: EventId)
    requires Initial(w) && ValidRun(w, steps)
    requires !EverDuplicates(w, steps) && multiset(After(w, steps).enqueued)[e] == 1
    ensures var v := After(w, steps);
            multiset(TaskEvents(v.senderQ))[e] + multiset(ReceiptEvents(v.receiptQ))[e]
            + multiset(v.finished)[e] + multiset(v.dropped)[e] + multiset(v.untracked)[e] == 1
  {
    ExactlyOneCopy(w, steps);
    assert Copies(After(w, steps))[e] == 1;
  }

  /** The import of a transaction is reported without a hash, or an error of its receipt task reads like that. */
  predicate Untracks(task: EventTask, c: Cached, rpc: SenderRpc) {
    && Submits(task, c, rpc) && rpc.unlocked && (rpc.updateRead || c.NoCache?)
    && (|| rpc.submitted == Raised(Imported, None)
        || (rpc.submitted.Done? && rpc.head.Raised? && rpc.head.kind == Imported)
        || (rpc.submitted.Done? && rpc.head.Done? && rpc.delivery == Rejected(Imported)))
  }

  /** Exactly when an event is acknowledged with nothing left to track it. */
  lemma UntrackedExactly(task: EventTask, c: Cached, rpc: SenderRpc)
    ensures ImportedUntracked(SenderSpec.Run(task, c, rpc)) <==> Untracks(task, c, rpc)
  {
    if Submits(task, c, rpc) {
      var n := ChooseNonce(task, c, rpc).value;
      assert SenderSpec.Run(task, c, rpc).receipts == Submit(task, n, rpc).receipts;
    }
  }

  /** Exactly which nonces are given up: that of a retry whose event a completed send drops or leaves untracked. */
  lemma ReleasedExactly(w: World, s: Step, k: nat)
    requires Enabled(w, s) && k !in w.released
    ensures k in Next(w, s).released <==>
            && s.action.Send? && s.action.fault.Completes?
            && var task, rpc := w.senderQ[s.action.i], s.action.senderRpc;
            task.nonce == Some(k) && (Drops(task, w.cached, rpc) || Untracks(task, w.cached, rpc))
  {
    if s.action.Send? {
      RunExactly(w.senderQ[s.action.i], w.cached, s.action.senderRpc);
      UntrackedExactly(w.senderQ[s.action.i], w.cached, s.action.senderRpc);
    }
  }

  // ---- finished means settled ----

  ghost predicate SettledBy(w: World, e: EventId, hash: TxHash, block: nat) {
    Submitted(e, hash) in w.log && Succeeded(hash, block) in w.log && w.head - block >= w.cfg.blockConfirmation
  }

  ghost predicate Settled(w: World) {
    && (forall r :: r in w.receiptQ ==> Submitted(r.eventTask.event, r.transactionHash) in w.log)
    && (forall e :: e in w.finished ==> SettledEvent(w, e))
  }

  /** A receipt task records the run it comes from: its message, the hash submitted, the head seen. */
  predicate Records(t: ReceiptTask, task: EventTask, hash: Option<TxHash>, rpc: SenderRpc) {
    && t.eventTask == task && hash == Some(t.transactionHash)
    && rpc.head == Done(t.sentBlock) && t.timestamp == rpc.now && t.retries == task.retries
  }

  lemma SubmitRecords(task: EventTask, nonce: nat, rpc: SenderRpc)
    ensures forall t :: t in Submit(task, nonce, rpc).receipts ==>
              Records(t, task, if rpc.submitted.Done? then Some(rpc.submitted.value) else rpc.submitted.hash, rpc)
  {
  }

  lemma ReceiptsWereSubmitted(task: EventTask, c: Cached, rpc: SenderRpc)
    ensures forall t :: t in SenderSpec.Run(task, c, rpc).receipts ==>
              Records(t, task, SubmittedHash(task, c, rpc), rpc)
  {
    var n := ChooseNonce(task, c, rpc);
    if n.Returned? {
      SubmitRecords(task, n.value, rpc);
    }
  }

  ghost predicate SettledEvent(w: World, e: EventId) {
    NothingToDo(e) in w.log || exists hash, block :: SettledBy(w, e, hash, block)
  }

  /** Exactly what a step observes: an event that needs nothing, a transaction handed over, a good receipt. */
  lemma ObservedExactly(w: World, s: Step, o: Observation)
    requires Enabled(w, s) && o !in w.log
    ensures o in Next(w, s).log <==>
            match s.action
            case Watch(_) => false
            case Idle => false
            case Send(i, rpc, _) =>
              || (rpc.txInfos == Returned(0) && o == NothingToDo(w.senderQ[i].event))
              || (o.Submitted? && o.event == w.senderQ[i].event
                  && SubmittedHash(w.senderQ[i], w.cached, rpc) == Some(o.hash))
            case Poll(j, rpc, _) =>
              && o.Succeeded? && o.hash == w.receiptQ[j].transactionHash
              && rpc.receipt == Returned(Some(Receiptor.Receipt(true, o.block)))
  {
  }

  /** What was observed stays observed, and blocks only get deeper. */
  lemma SettledStays(w: World, s: Step, e: EventId)
    requires Enabled(w, s) && SettledEvent(w, e)
    ensures SettledEvent(Next(w, s), e)
  {
    var w' := Next(w, s);
    assert w.log <= w'.log && w.cfg == w'.cfg;
    if NothingToDo(e) !in w.log {
      var hash, block :| SettledBy(w, e, hash, block);
      assert SettledBy(w', e, hash, block);
    }
  }

  lemma SendSettled(w: World, s: Step)
    requires Settled(w) && Enabled(w, s) && s.action.Send?
    ensures var w' := Next(w, s);
            && (forall r :: r in w'.receiptQ ==> Submitted(r.eventTask.event, r.transactionHash) in w'.log)
            && (forall e :: e in w'.finished ==> e in w.finished || NothingToDo(e) in w'.log)
  {
    ReceiptsWereSubmitted(w.senderQ[s.action.i], w.cached, s.action.senderRpc);
  }

  lemma PollSettled(w: World, s: Step)
    requires Settled(w) && Enabled(w, s) && s.action.Poll?
    ensures var w' := Next(w, s);
            && (forall r :: r in w'.receiptQ ==> Submitted(r.eventTask.event, r.transactionHash) in w'.log)
            && (forall e :: e in w'.finished ==> e in w.finished || SettledEvent(w', e))
  {
    var task := w.receiptQ[s.action.j];
    var rpc := s.action.receiptorRpc;
    assert task in w.receiptQ;
    if Receiptor.RunSpec(task, w.cfg, rpc).verdict == Receiptor.Result(Receiptor.Success) {
      assert SettledBy(Next(w, s), task.eventTask.event, task.transactionHash, rpc.receipt.value.value.blockNumber);
    }
  }

  lemma StepSettled(w: World, s: Step)
    requires Settled(w) && Enabled(w, s)
    ensures Settled(Next(w, s))
  {
    if s.action.Send? {
      SendSettled(w, s);
    } else if s.action.Poll? {
      PollSettled(w, s);
    }
    forall e | e in w.finished ensures SettledEvent(Next(w, s), e) {
      SettledStays(w, s, e);
    }
  }

  /**
   Finished means settled: an event leaves as finished only if it once needed no transaction, or
   a transaction submitted for it succeeded in a block at least K deep.
   */
  lemma {:induction false} FinishedMeansSettled(w: World, steps: seq<Step>)
    requires Settled(w) && ValidRun(w, steps)
    ensures Settled(After(w, steps))
    decreases |steps|
  {
    if steps != [] {
      StepSettled(w, steps[0]);
      FinishedMeansSettled(Next(w, steps[0]), steps[1..]);
    }
  }
}
