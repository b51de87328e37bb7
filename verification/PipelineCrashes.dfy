/** The states a dying handler leaves behind are those after some of its effects, in the order of its statements. */
module PipelineCrashes {
  import opened Types
  import opened SenderSpec
  import opened Pipeline
  import SenderMain
  import PipelineEvents
  import Receiptor

  /** One effect on the world; settling the message is what completes the handler. */
  function Perform(w: World, e: Effect): World {
    match e
    case TaskTracked(receipt) => w.(receiptQ := w.receiptQ + [receipt])
    case NonceStored(nonce) => w.(cached := Nonce(nonce))
    case TaskRequeued(task) => w.(senderQ := w.senderQ + [task])
    case MessageSettled(_) => w
  }

  function PerformAll(w: World, effects: seq<Effect>): World
    decreases |effects|
  {
    if effects == [] then w else PerformAll(Perform(w, effects[0]), effects[1..])
  }

  lemma {:induction false} PerformConcat(w: World, a: seq<Effect>, b: seq<Effect>)
    ensures PerformAll(w, a + b) == PerformAll(PerformAll(w, a), b)
    decreases |a|
  {
    if a == [] {
      assert a + b == b;
    } else {
      assert (a + b)[1..] == a[1..] + b;
      PerformConcat(Perform(w, a[0]), a[1..], b);
    }
  }

  lemma PerformTracking(w: World, receipts: seq<ReceiptTask>)
    requires |receipts| <= 1
    ensures PerformAll(w, Tracking(receipts)) == w.(receiptQ := w.receiptQ + receipts)
  {
    if receipts == [] {
      assert w.receiptQ + receipts == w.receiptQ;
    } else {
      assert Tracking(receipts) == [TaskTracked(receipts[0])];
      assert receipts == [receipts[0]];
    }
  }

  lemma PerformRequeuing(w: World, fate: SenderMain.Settlement)
    ensures PerformAll(w, SenderMain.Requeuing(fate)) == w.(senderQ := w.senderQ + SenderMain.Republished(fate))
  {
    if !fate.Requeued? {
      assert w.senderQ + [] == w.senderQ;
    }
  }

  lemma PerformStoring(w: World, c': Cached)
    requires c'.Nonce? || c' == w.cached
    ensures PerformAll(w, Storing(w.cached, c')) == w.(cached := c')
  {
  }

  /** The first effects of message `i`'s handler, with what was observed of its run. */
  function Died(w: World, i: nat, rpc: SenderRpc, n: nat): World
    requires i < |w.senderQ| && n <= |SenderMain.Effects(w.senderQ[i], w.cached, rpc)|
  {
    var task := w.senderQ[i];
    PerformAll(w, SenderMain.Effects(task, w.cached, rpc)[..n]).(
      taken := w.taken + Taken(task, w.cached, rpc),
      log := w.log + SenderLog(task, w.cached, rpc))
  }

  /** How many effects have taken place at a stage of a crash. */
  function EffectsBy(task: EventTask, c: Cached, rpc: SenderRpc, stage: nat): nat {
    var r := SenderSpec.Run(task, c, rpc);
    (if stage >= 1 then |Tracking(r.receipts)| else 0)
    + (if stage >= 2 then |Storing(c, r.cached)| else 0)
    + (if stage >= 3 then |SenderMain.Requeuing(SenderMain.Settle(task, r.out))| else 0)
  }

  lemma RunCached(task: EventTask, c: Cached, rpc: SenderRpc)
    ensures var c' := SenderSpec.Run(task, c, rpc).cached; c'.Nonce? || c' == c
  {
  }

  lemma StagePrefix(task: EventTask, c: Cached, rpc: SenderRpc, stage: nat)
    ensures var r := SenderSpec.Run(task, c, rpc);
            var fate := SenderMain.Settle(task, r.out);
            var n := EffectsBy(task, c, rpc, stage);
            && n < |SenderMain.Effects(task, c, rpc)|
            && SenderMain.Effects(task, c, rpc)[..n] ==
               (if stage >= 1 then Tracking(r.receipts) else [])
               + (if stage >= 2 then Storing(c, r.cached) else [])
               + (if stage >= 3 then SenderMain.Requeuing(fate) else [])
  {
  }

  /** A crash at a stage leaves the world after that many effects. */
  lemma StageDies(w: World, i: nat, rpc: SenderRpc, stage: nat)
    requires i < |w.senderQ|
    ensures var n := EffectsBy(w.senderQ[i], w.cached, rpc, stage);
            && n < |SenderMain.Effects(w.senderQ[i], w.cached, rpc)|
            && SendCrashes(w, i, rpc, stage) == Died(w, i, rpc, n)
  {
    var task := w.senderQ[i];
    var r := SenderSpec.Run(task, w.cached, rpc);
    var fate := SenderMain.Settle(task, r.out);
    PipelineEvents.RunReceipts(task, w.cached, rpc);
    RunCached(task, w.cached, rpc);
    StagePrefix(task, w.cached, rpc, stage);
    assert w.receiptQ + [] == w.receiptQ && w.senderQ + [] == w.senderQ;
    if stage >= 1 {
      var w1 := w.(receiptQ := w.receiptQ + r.receipts);
      PerformTracking(w, r.receipts);
      assert Tracking(r.receipts) + [] == Tracking(r.receipts);
      if stage >= 2 {
        var w2 := w1.(cached := r.cached);
        PerformStoring(w1, r.cached);
        PerformConcat(w, Tracking(r.receipts), Storing(w.cached, r.cached));
        var stored := Tracking(r.receipts) + Storing(w.cached, r.cached);
        assert stored + [] == stored;
        if stage >= 3 {
          PerformRequeuing(w2, fate);
          PerformConcat(w, stored, SenderMain.Requeuing(fate));
        }
      }
    }
  }

  /** Every number of effects short of all of them is a stage. */
  lemma StageOf(task: EventTask, c: Cached, rpc: SenderRpc, n: nat) returns (stage: nat)
    requires n < |SenderMain.Effects(task, c, rpc)|
    ensures EffectsBy(task, c, rpc, stage) == n
  {
    PipelineEvents.RunReceipts(task, c, rpc);
    stage := if n == EffectsBy(task, c, rpc, 0) then 0
             else if n == EffectsBy(task, c, rpc, 1) then 1
             else if n == EffectsBy(task, c, rpc, 2) then 2 else 3;
  }

  /**
   The states a handler may die in are exactly those after a proper part of its effects, taken in the
   order its statements produce them.
   */
  lemma CrashesArePrefixes(w: World, i: nat, rpc: SenderRpc, w': World)
    requires i < |w.senderQ|
    ensures (exists stage: nat :: w' == SendCrashes(w, i, rpc, stage)) <==>
            (exists n: nat :: n < |SenderMain.Effects(w.senderQ[i], w.cached, rpc)| && w' == Died(w, i, rpc, n))
  {
    if stage: nat :| w' == SendCrashes(w, i, rpc, stage) {
      StageDies(w, i, rpc, stage);
    }
    if n: nat :| n < |SenderMain.Effects(w.senderQ[i], w.cached, rpc)| && w' == Died(w, i, rpc, n) {
      var stage := StageOf(w.senderQ[i], w.cached, rpc, n);
      StageDies(w, i, rpc, stage);
    }
  }

  // ---- the receiptor ----

  function PerformPoll(w: World, e: Receiptor.Effect): World {
    match e
    case EventResent(task) => w.(senderQ := w.senderQ + [task])
    case TaskDelayed(task) => w.(receiptQ := w.receiptQ + [task])
    case MessageSettled => w
  }

  function PerformPolls(w: World, effects: seq<Receiptor.Effect>): World
    decreases |effects|
  {
    if effects == [] then w else PerformPolls(PerformPoll(w, effects[0]), effects[1..])
  }

  /** The first publishes of message `j`'s handler, with what was observed of its run. */
  function PollDied(w: World, j: nat, rpc: Receiptor.ReceiptorRpc, n: nat): World
    requires j < |w.receiptQ| && n <= |Receiptor.Publishes(w.receiptQ[j], w.cfg, rpc)|
  {
    var task := w.receiptQ[j];
    PerformPolls(w, Receiptor.Publishes(task, w.cfg, rpc)[..n]).(log := w.log + PollLog(task, rpc))
  }

  /** How many publishes have taken place at a stage of a crash. */
  function PublishesBy(task: ReceiptTask, cfg: Receiptor.Config, rpc: Receiptor.ReceiptorRpc, stage: nat): nat {
    var r := Receiptor.RunSpec(task, cfg, rpc);
    (if stage >= 1 then |r.resent| else 0)
    + (if stage >= 2 && Receiptor.Settle(r.verdict).Retried? then 1 else 0)
  }

  lemma PerformsResend(w: World, resent: seq<EventTask>, delayed: seq<ReceiptTask>, effects: seq<Receiptor.Effect>)
    requires |resent| <= 1 && |delayed| <= 1
    requires effects == Receiptor.Resending(resent)
                        + if delayed == [] then [] else [Receiptor.TaskDelayed(delayed[0])]
    ensures PerformPolls(w, effects) == w.(senderQ := w.senderQ + resent, receiptQ := w.receiptQ + delayed)
  {
    assert w.senderQ + [] == w.senderQ && w.receiptQ + [] == w.receiptQ;
    var w1 := w.(senderQ := w.senderQ + resent);
    var rest := effects[|resent|..];
    assert PerformPolls(w, effects) == PerformPolls(w1, rest) by {
      if resent != [] {
        assert resent == [resent[0]] && effects[0] == Receiptor.EventResent(resent[0]);
      }
    }
    if delayed != [] {
      assert delayed == [delayed[0]] && rest == [Receiptor.TaskDelayed(delayed[0])];
      var w2 := PerformPoll(w1, rest[0]);
      assert rest[1..] == [] && PerformPolls(w1, rest) == w2;
      assert w2.receiptQ == w.receiptQ + delayed;
    } else {
      assert rest == [];
    }
  }

  /** A crash at a stage leaves the world after that many publishes. */
  lemma PollStageDies(w: World, j: nat, rpc: Receiptor.ReceiptorRpc, stage: nat)
    requires j < |w.receiptQ|
    ensures var n := PublishesBy(w.receiptQ[j], w.cfg, rpc, stage);
            && n <= |Receiptor.Publishes(w.receiptQ[j], w.cfg, rpc)|
            && PollCrashes(w, j, rpc, stage) == PollDied(w, j, rpc, n)
  {
    var task := w.receiptQ[j];
    var r := Receiptor.RunSpec(task, w.cfg, rpc);
    var resent := if stage >= 1 then r.resent else [];
    var delayed := if stage >= 2 && Receiptor.Settle(r.verdict).Retried? then [task] else [];
    PerformsResend(w, resent, delayed,
                   Receiptor.Publishes(task, w.cfg, rpc)[..PublishesBy(task, w.cfg, rpc, stage)]);
  }

  /** The states a receiptor may die in are exactly those after some of its publishes, in statement order. */
  lemma PollCrashesArePrefixes(w: World, j: nat, rpc: Receiptor.ReceiptorRpc, w': World)
    requires j < |w.receiptQ|
    ensures (exists stage: nat :: w' == PollCrashes(w, j, rpc, stage)) <==>
            (exists n: nat :: n <= |Receiptor.Publishes(w.receiptQ[j], w.cfg, rpc)| && w' == PollDied(w, j, rpc, n))
  {
    if stage: nat :| w' == PollCrashes(w, j, rpc, stage) {
      PollStageDies(w, j, rpc, stage);
    }
    if n: nat :| n <= |Receiptor.Publishes(w.receiptQ[j], w.cfg, rpc)| && w' == PollDied(w, j, rpc, n) {
      var stage: nat := if n == 0 then 0 else if n == PublishesBy(w.receiptQ[j], w.cfg, rpc, 1) then 1 else 2;
      PollStageDies(w, j, rpc, stage);
    }
  }
}
