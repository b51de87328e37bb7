/** Reachable runs in which a promised property fails, one for each exact condition that rules them out. */
module Witnesses {
  import opened Wrappers
  import opened Types
  import opened SenderSpec
  import opened Pipeline
  import PipelineEvents
  import PipelineFresh
  import Receiptor

  const EVENT: EventId := 7

  const TASK := EventTask("transfer", EVENT, None, None, None)

  /** A run in which every call answers and the node's count is 5. */
  const SMOOTH := SenderRpc(Returned(1), true, Returned(5), true, Returned(5), Done("0x1"), true, Done(100), 0,
                            Delivered, Returned(5), true, true, true)

  function Sends(rpc: SenderRpc, fault: Fault): Step {
    Step(Send(0, rpc, fault), 5, 100)
  }

  const WATCH := Step(Watch(TASK), 5, 100)

  function Begin(cfg: Receiptor.Config): World {
    Start(cfg, 5, 100, Empty)
  }

  lemma {:induction false} OneMore(w: World, steps: seq<Step>, s: Step)
    requires ValidRun(w, steps) && Enabled(After(w, steps), s)
    ensures ValidRun(w, steps + [s]) && After(w, steps + [s]) == Next(After(w, steps), s)
    decreases |steps|
  {
    if steps == [] {
      assert [s][1..] == [];
    } else {
      assert (steps + [s])[1..] == steps[1..] + [s];
      OneMore(Next(w, steps[0]), steps[1..], s);
    }
  }

  /** The world after the first task was watched. */
  function Watched(cfg: Receiptor.Config): World {
    Begin(cfg).(senderQ := [TASK], enqueued := [EVENT])
  }

  lemma Watching(cfg: Receiptor.Config)
    ensures Initial(Begin(cfg)) && ValidRun(Begin(cfg), [WATCH]) && After(Begin(cfg), [WATCH]) == Watched(cfg)
  {
    assert [] + [WATCH] == [WATCH];
    OneMore(Begin(cfg), [], WATCH);
  }

  /** A run that starts by watching the task and goes on with two more steps. */
  lemma WatchAndTwo(cfg: Receiptor.Config, a: Step, b: Step)
    requires Enabled(Watched(cfg), a) && Enabled(Next(Watched(cfg), a), b)
    ensures ValidRun(Begin(cfg), [WATCH, a, b])
    ensures After(Begin(cfg), [WATCH, a, b]) == Next(Next(Watched(cfg), a), b)
  {
    Watching(cfg);
    OneMore(Begin(cfg), [WATCH], a);
    assert [WATCH] + [a] == [WATCH, a];
    OneMore(Begin(cfg), [WATCH, a], b);
    assert [WATCH, a] + [b] == [WATCH, a, b];
  }

  /** The receipt task of a run of `TASK` under the nonce 5. */
  const TRACKED := ReceiptTask(TASK, 5, 0, "0x1", 100, None)

  lemma SmoothRuns(c: Cached)
    requires c == Empty || c == Nonce(5)
    ensures SenderSpec.Run(TASK, c, SMOOTH) == SenderRun(Returned(Success), Nonce(6), [TRACKED])
    ensures SenderSpec.Run(TASK, c, SMOOTH.(stored := false)) == SenderRun(Returned(Success), c, [TRACKED])
    ensures SenderSpec.Run(TASK, c, SMOOTH.(unlocked := false)) == SenderRun(Threw, Nonce(6), [TRACKED])
    ensures SenderSpec.Run(TASK, c, SMOOTH.(head := Raised(Unknown, None))) ==
            SenderRun(Returned(Failed), Nonce(5), [])
  {
  }

  const UNTRACKED := Sends(SMOOTH.(head := Raised(Unknown, None)), Completes)
  const UNHEARD := Sends(SMOOTH.(submitted := Raised(TimedOut, None)), Completes)
  const UNSTORED := Sends(SMOOTH.(stored := false), Completes)
  const UNRELEASED := Sends(SMOOTH.(unlocked := false), Completes)
  const DIES := Sends(SMOOTH, CrashAt(1))
  const IMPORTED := Sends(SMOOTH.(submitted := Raised(Imported, Some("0x1"))), Completes)

  /** The next fresh nonce is 5. */
  predicate AtFive(w: World) {
    w.mined == 5 && w.head == 100 && (w.cached == Empty || w.cached == Nonce(5))
  }

  /** The task waits to be sent. */
  predicate Waits(w: World) {
    w.senderQ == [TASK] && AtFive(w)
  }

  // ---- a second event ----

  const OTHER := EventTask("transfer", 8, None, None, None)
  const WATCH_OTHER := Step(Watch(OTHER), 5, 100)

  function OtherSends(i: nat): Step {
    Step(Send(i, SMOOTH.(submitted := Done("0x2")), Completes), 5, 100)
  }

  lemma OtherTakes(w: World)
    requires AtFive(w) && w.senderQ != [] && w.senderQ[|w.senderQ|-1] == OTHER
    ensures var send := OtherSends(|w.senderQ| - 1);
            && Enabled(w, send)
            && Next(w, send).taken == w.taken + [5] && Next(w, send).freshNonces == w.freshNonces + [5]
  {
  }

  /** A run that watches the task, takes one more step, and then watches and sends a second event. */
  function AndOther(cfg: Receiptor.Config, first: Step): seq<Step>
    requires Enabled(Watched(cfg), first)
  {
    [WATCH, first, WATCH_OTHER] + [OtherSends(|Next(Watched(cfg), first).senderQ|)]
  }

  lemma OtherRuns(cfg: Receiptor.Config, first: Step)
    requires Enabled(Watched(cfg), first) && AtFive(Next(Watched(cfg), first))
    ensures var w := Next(Watched(cfg), first);
            && ValidRun(Begin(cfg), AndOther(cfg, first))
            && var w' := After(Begin(cfg), AndOther(cfg, first));
            w'.taken == w.taken + [5] && w'.freshNonces == w.freshNonces + [5]
  {
    var w := Next(Watched(cfg), first);
    var w1 := Next(w, WATCH_OTHER);
    assert w1 == w.(senderQ := w.senderQ + [OTHER], enqueued := w.enqueued + [OTHER.event]);
    WatchAndTwo(cfg, first, WATCH_OTHER);
    OtherTakes(w1);
    OneMore(Begin(cfg), [WATCH, first, WATCH_OTHER], OtherSends(|w.senderQ|));
  }

  // ---- one fresh nonce, two transactions ----

  lemma UntrackedStep(w: World)
    requires Waits(w)
    ensures Enabled(w, UNTRACKED)
    ensures AtFive(Next(w, UNTRACKED)) && Next(w, UNTRACKED).taken == w.taken + [5]
  {
    SmoothRuns(w.cached);
  }

  /**
   The node accepts a transaction and reading the head for its receipt task fails: the next event is
   sent under the same fresh nonce, though the cache answered and stored throughout.
   */
  lemma FreshNonceTakenTwice(cfg: Receiptor.Config)
    ensures Enabled(Watched(cfg), UNTRACKED) && PipelineFresh.CacheAnswers(UNTRACKED)
    ensures ValidRun(Begin(cfg), AndOther(cfg, UNTRACKED))
    ensures After(Begin(cfg), AndOther(cfg, UNTRACKED)).taken == [5, 5]
  {
    UntrackedStep(Watched(cfg));
    OtherRuns(cfg, UNTRACKED);
  }

  lemma UnheardStep(w: World)
    requires Waits(w)
    ensures Enabled(w, UNHEARD)
    ensures AtFive(Next(w, UNHEARD)) && Next(w, UNHEARD).taken == w.taken + [5]
  {
  }

  /**
   The node accepts a transaction but its answer comes after the timeout: the next event is sent
   under the same fresh nonce, though the cache answered and stored throughout.
   */
  lemma TimeoutTakenTwice(cfg: Receiptor.Config)
    ensures Enabled(Watched(cfg), UNHEARD) && PipelineFresh.CacheAnswers(UNHEARD)
    ensures ValidRun(Begin(cfg), AndOther(cfg, UNHEARD))
    ensures After(Begin(cfg), AndOther(cfg, UNHEARD)).taken == [5, 5]
  {
    UnheardStep(Watched(cfg));
    OtherRuns(cfg, UNHEARD);
  }

  lemma UnstoredStep(w: World)
    requires Waits(w) && w.cached == Empty
    ensures Enabled(w, UNSTORED)
    ensures var w' := Next(w, UNSTORED);
            && AtFive(w') && w'.cached == Empty
            && w'.freshNonces == w.freshNonces + [5] && w'.receiptQ == w.receiptQ + [TRACKED]
  {
    SmoothRuns(w.cached);
  }

  /** The store after a success is lost, and the next event succeeds with the same fresh nonce. */
  lemma LostStoreRepeatsNonce(cfg: Receiptor.Config)
    ensures Enabled(Watched(cfg), UNSTORED) && ValidRun(Begin(cfg), AndOther(cfg, UNSTORED))
    ensures After(Begin(cfg), AndOther(cfg, UNSTORED)).freshNonces == [5, 5]
  {
    UnstoredStep(Watched(cfg));
    OtherRuns(cfg, UNSTORED);
  }

  /** The store after a success is lost: the receipt task is under a nonce the cache has not reached. */
  lemma LostStoreLeavesCacheBehind(cfg: Receiptor.Config)
    ensures ValidRun(Begin(cfg), [WATCH, UNSTORED])
    ensures PipelineFresh.WithinCache(Begin(cfg))
    ensures !PipelineFresh.WithinCache(After(Begin(cfg), [WATCH, UNSTORED]))
  {
    Watching(cfg);
    UnstoredStep(Watched(cfg));
    OneMore(Begin(cfg), [WATCH], UNSTORED);
    assert [WATCH] + [UNSTORED] == [WATCH, UNSTORED];
    assert TRACKED in Next(Watched(cfg), UNSTORED).receiptQ;
  }

  // ---- one transaction, two receipt tasks ----

  lemma DyingStep(w: World)
    requires Waits(w)
    ensures Enabled(w, DIES)
    ensures Waits(Next(w, DIES)) && Next(w, DIES).receiptQ == w.receiptQ + [TRACKED]
  {
    SmoothRuns(w.cached);
  }

  lemma ImportedStep(w: World)
    requires Waits(w)
    ensures Enabled(w, IMPORTED)
    ensures Next(w, IMPORTED).receiptQ == w.receiptQ + [TRACKED]
  {
  }

  /**
   A sender dies between its receipt task and the store; the redelivered event submits the same
   transaction, which the node knows, and a second receipt task holds the same fresh nonce.
   */
  lemma FreshNonceTrackedTwice(cfg: Receiptor.Config)
    ensures ValidRun(Begin(cfg), [WATCH, DIES, IMPORTED])
    ensures After(Begin(cfg), [WATCH, DIES, IMPORTED]).receiptQ == [TRACKED, TRACKED]
  {
    DyingStep(Watched(cfg));
    ImportedStep(Next(Watched(cfg), DIES));
    WatchAndTwo(cfg, DIES, IMPORTED);
  }

  // ---- one event, two copies ----

  lemma UnreleasedStep(w: World)
    requires Waits(w)
    ensures Enabled(w, UNRELEASED)
    ensures var w' := Next(w, UNRELEASED);
            && w'.senderQ == [TASK] && w'.receiptQ == w.receiptQ + [TRACKED]
            && w'.finished == w.finished && w'.dropped == w.dropped && w'.untracked == w.untracked
            && w'.enqueued == w.enqueued
  {
    SmoothRuns(w.cached);
    assert Without([TASK], 0) == [];
  }

  lemma TwoCopies(w: World)
    requires w.senderQ == [TASK] && w.receiptQ == [TRACKED]
    requires w.finished == w.dropped == w.untracked == []
    ensures PipelineEvents.Copies(w)[EVENT] == 2
  {
    assert PipelineEvents.TaskEvents([TASK]) == [EVENT];
    assert PipelineEvents.ReceiptEvents([TRACKED]) == [EVENT];
  }

  /** The lock fails to release after a success: the event has a receipt task and is requeued as well. */
  lemma LostUnlockDuplicates(cfg: Receiptor.Config)
    ensures ValidRun(Begin(cfg), [WATCH, UNRELEASED])
    ensures var w := After(Begin(cfg), [WATCH, UNRELEASED]);
            w.enqueued == [EVENT] && PipelineEvents.Copies(w)[EVENT] == 2
  {
    Watching(cfg);
    UnreleasedStep(Watched(cfg));
    OneMore(Begin(cfg), [WATCH], UNRELEASED);
    assert [WATCH] + [UNRELEASED] == [WATCH, UNRELEASED];
    TwoCopies(Next(Watched(cfg), UNRELEASED));
  }
}
