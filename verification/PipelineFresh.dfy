/**
 The discipline of the cached nonce: it never decreases, and exactly when it bounds every nonce in
 flight and when a fresh nonce is taken only once.
 */
module PipelineFresh {
  import opened Wrappers
  import opened Types
  import opened SenderSpec
  import opened SenderOutcomes
  import opened Pipeline
  import opened Arithmetic
  import PipelineNonces
  import SenderMain

  /** Where a completed submission leaves the cached nonce: past the nonce it used only after a success. */
  lemma CachedAfterSend(task: EventTask, c: Cached, rpc: SenderRpc)
    requires !c.NoCache? && rpc.stored && Submits(task, c, rpc)
    requires SenderSpec.Run(task, c, rpc).out.Returned?
    ensures var r := SenderSpec.Run(task, c, rpc);
            var used := ChooseNonce(task, c, rpc).value;
            && (r.out == Returned(Success) ==> CachedValue(r.cached) == Max(CachedValue(c), used + 1))
            && (r.out == Returned(TooLow) ==>
                  rpc.refreshed.Returned? && CachedValue(r.cached) == Max(CachedValue(c), rpc.refreshed.value))
            && (r.out != Returned(Success) && r.out != Returned(TooLow) ==>
                  CachedValue(r.cached) == Max(CachedValue(c), used))
  {
    var s := Submit(task, ChooseNonce(task, c, rpc).value, rpc);
    assert SenderSpec.Run(task, c, rpc).cached == UpdateNonce(c, s.nonce, true);
  }

  predicate NotBelow(bound: Outcome<nat>, answer: Outcome<nat>) {
    bound.Returned? && answer.Returned? ==> bound.value <= answer.value
  }

  /** After nonce too low the requeued task never tries a nonce below the count the node then gave. */
  lemma TooLowCatchesUp(task: EventTask, c: Cached, rpc: SenderRpc, again: SenderRpc)
    requires !c.NoCache? && rpc.stored && SenderSpec.Run(task, c, rpc).out == Returned(TooLow)
    requires IsRetryTask(task) || task.nonce.None?
    requires NotBelow(rpc.refreshed, again.counted)
    ensures var r := SenderSpec.Run(task, c, rpc);
            var fate := SenderMain.Settle(task, r.out);
            && rpc.refreshed.Returned? && fate.Requeued?
            && NotBelow(rpc.refreshed, ChooseNonce(fate.task, r.cached, again))
  {
    assert Submits(task, c, rpc);
    CachedAfterSend(task, c, rpc);
    assert SenderSpec.Run(task, c, rpc).cached.Nonce?;
  }

  /** A run keeps the kind of cache and never lowers the nonce in it. */
  lemma RunKeepsCached(task: EventTask, c: Cached, rpc: SenderRpc)
    ensures var c' := SenderSpec.Run(task, c, rpc).cached;
            && CachedValue(c) <= CachedValue(c')
            && (c.Nonce? ==> c'.Nonce?) && (c.NoCache? <==> c'.NoCache?)
  {
  }

  lemma StepKeepsCached(w: World, s: Step)
    requires Enabled(w, s)
    ensures var c' := Next(w, s).cached;
            && CachedValue(w.cached) <= CachedValue(c')
            && (w.cached.Nonce? ==> c'.Nonce?) && (w.cached.NoCache? <==> c'.NoCache?)
  {
    if s.action.Send? {
      RunKeepsCached(w.senderQ[s.action.i], w.cached, s.action.senderRpc);
    }
  }

  /** The cached nonce never decreases over any run. */
  lemma {:induction false} CachedNeverDecreases(w: World, steps: seq<Step>)
    requires ValidRun(w, steps)
    ensures CachedValue(w.cached) <= CachedValue(After(w, steps).cached)
    ensures w.cached.Nonce? ==> After(w, steps).cached.Nonce?
    decreases |steps|
  {
    if steps != [] {
      StepKeepsCached(w, steps[0]);
      CachedNeverDecreases(Next(w, steps[0]), steps[1..]);
    }
  }

  /** A run, whether it finishes or dies, stores a nonce of at least some bound. */
  predicate StoresAtLeast(task: EventTask, c: Cached, rpc: SenderRpc, fault: Fault, bound: nat) {
    && Submits(task, c, rpc) && !c.NoCache? && rpc.updateRead && rpc.stored
    && (fault.Completes? || fault.stage >= 2)
    && var next := NextNonce(rpc, ChooseNonce(task, c, rpc).value);
    next.Some? && bound <= next.value
  }

  predicate Reaches(c: Cached, bound: nat) {
    c.Nonce? && bound <= c.value
  }

  /** The cached nonce is at least some bound after a run. */
  predicate Accounts(task: EventTask, c: Cached, rpc: SenderRpc, fault: Fault, bound: nat) {
    Reaches(c, bound) || StoresAtLeast(task, c, rpc, fault, bound)
  }

  lemma AccountsExactly(w: World, s: Step, bound: nat)
    requires Enabled(w, s) && s.action.Send?
    ensures var c' := Next(w, s).cached;
            Reaches(c', bound) <==>
            Accounts(w.senderQ[s.action.i], w.cached, s.action.senderRpc, s.action.fault, bound)
  {
    CachedExactly(w.senderQ[s.action.i], w.cached, s.action.senderRpc, bound);
  }

  /** A step stores a nonce of at least some bound. */
  predicate Stores(w: World, s: Step, bound: nat)
    requires Enabled(w, s)
  {
    s.action.Send? && StoresAtLeast(w.senderQ[s.action.i], w.cached, s.action.senderRpc, s.action.fault, bound)
  }

  predicate SomeStores(w: World, steps: seq<Step>, bound: nat)
    requires ValidRun(w, steps)
    decreases |steps|
  {
    steps != [] && (Stores(w, steps[0], bound) || SomeStores(Next(w, steps[0]), steps[1..], bound))
  }

  lemma StepReaches(w: World, s: Step, bound: nat)
    requires Enabled(w, s)
    ensures Reaches(Next(w, s).cached, bound) <==> Reaches(w.cached, bound) || Stores(w, s, bound)
  {
    if s.action.Send? {
      AccountsExactly(w, s, bound);
    }
  }

  /** Over any run the cached nonce reaches a bound exactly when it had, or when some step stores that much. */
  lemma {:induction false} CachedReached(w: World, steps: seq<Step>, bound: nat)
    requires ValidRun(w, steps)
    ensures Reaches(After(w, steps).cached, bound) <==> Reaches(w.cached, bound) || SomeStores(w, steps, bound)
    decreases |steps|
  {
    if steps != [] {
      StepReaches(w, steps[0], bound);
      CachedReached(Next(w, steps[0]), steps[1..], bound);
    }
  }

  // ---- nonces in flight ----

  predicate NonceWithin(nonce: nat, c: Cached) {
    c.Nonce? && nonce <= c.value
  }

  /** No nonce in flight is above the cached nonce. */
  ghost predicate WithinCache(w: World) {
    && !w.cached.NoCache?
    && (forall t :: t in w.senderQ && t.nonce.Some? ==> NonceWithin(t.nonce.value, w.cached))
    && (forall r :: r in w.receiptQ ==> NonceWithin(r.nonce, w.cached))
  }

  /**
   A send exposes the nonce it submits with, in a receipt task, only if the cached nonce ends up
   at least there. A nonce the cache answered, or that came with the task, is there already.
   */
  predicate KeepsWithin(w: World, s: Step)
    requires Enabled(w, s)
  {
    s.action.Send? ==>
      var Send(i, rpc, fault) := s.action;
      var task := w.senderQ[i];
      Submits(task, w.cached, rpc) && Tracks(task, w.cached, rpc) && (fault.Completes? || fault.stage >= 1) ==>
        Accounts(task, w.cached, rpc, fault, ChooseNonce(task, w.cached, rpc).value)
  }

  /** While the cache holds a nonce and answers the read, nothing else that fails can break the bound. */
  lemma AnsweringCacheKeeps(w: World, s: Step)
    requires WithinCache(w) && Enabled(w, s)
    requires s.action.Send? ==> w.cached.Nonce? && s.action.senderRpc.cacheRead
    ensures KeepsWithin(w, s)
  {
    if s.action.Send? {
      assert w.senderQ[s.action.i] in w.senderQ;
    }
  }

  lemma SubmitHolds(task: EventTask, nonce: nat, rpc: SenderRpc)
    ensures forall t :: t in Submit(task, nonce, rpc).receipts ==> t.nonce == nonce
  {
  }

  /** The nonce a receipt task holds: the one the run submitted with, or that of the retry it fills. */
  lemma RunHolds(task: EventTask, c: Cached, rpc: SenderRpc)
    ensures forall t :: t in SenderSpec.Run(task, c, rpc).receipts ==>
              if Submits(task, c, rpc) then t.nonce == ChooseNonce(task, c, rpc).value
              else task.nonce == Some(t.nonce)
  {
    if Submits(task, c, rpc) {
      SubmitHolds(task, ChooseNonce(task, c, rpc).value, rpc);
    }
  }

  lemma SendKeepsTasks(w: World, s: Step)
    requires WithinCache(w) && Enabled(w, s) && s.action.Send?
    ensures forall t :: t in Next(w, s).senderQ && t.nonce.Some? ==> NonceWithin(t.nonce.value, Next(w, s).cached)
    ensures forall r :: r in w.receiptQ ==> NonceWithin(r.nonce, Next(w, s).cached)
  {
    var Send(i, rpc, _) := s.action;
    var task := w.senderQ[i];
    StepKeepsCached(w, s);
    PipelineNonces.WithoutMembers(w.senderQ, i);
    assert task in w.senderQ;
    var again := SenderMain.Republished(SenderMain.Settle(task, SenderSpec.Run(task, w.cached, rpc).out));
    assert forall t :: t in again ==> t == task || t.nonce.None?;
  }

  lemma SendWithinExactly(w: World, s: Step)
    requires WithinCache(w) && Enabled(w, s) && s.action.Send?
    ensures WithinCache(Next(w, s)) <==> KeepsWithin(w, s)
  {
    var Send(i, rpc, fault) := s.action;
    var task := w.senderQ[i];
    var r := SenderSpec.Run(task, w.cached, rpc);
    var w' := Next(w, s);
    StepKeepsCached(w, s);
    SendKeepsTasks(w, s);
    RunExactly(task, w.cached, rpc);
    RunHolds(task, w.cached, rpc);
    assert task in w.senderQ;
    var exposed := if fault.Completes? || fault.stage >= 1 then r.receipts else [];
    assert w'.receiptQ == w.receiptQ + exposed;
    if Submits(task, w.cached, rpc) {
      AccountsExactly(w, s, ChooseNonce(task, w.cached, rpc).value);
      if exposed != [] {
        assert exposed[0] in w'.receiptQ;
      }
    }
  }

  /** Exactly when a step keeps every nonce in flight within the cached nonce. */
  lemma WithinExactly(w: World, s: Step)
    requires WithinCache(w) && Enabled(w, s)
    ensures WithinCache(Next(w, s)) <==> KeepsWithin(w, s)
  {
    match s.action
    case Send(_, _, _) => SendWithinExactly(w, s);
    case Poll(j, rpc, _) =>
      PipelineNonces.WithoutMembers(w.receiptQ, j);
      assert w.receiptQ[j] in w.receiptQ;
    case Watch(t) =>
    case Idle =>
  }

  ghost predicate AlwaysWithin(w: World, steps: seq<Step>)
    requires ValidRun(w, steps)
    decreases |steps|
  {
    WithinCache(w) && (steps == [] || AlwaysWithin(Next(w, steps[0]), steps[1..]))
  }

  predicate EachKeepsWithin(w: World, steps: seq<Step>)
    requires ValidRun(w, steps)
    decreases |steps|
  {
    steps == [] || (KeepsWithin(w, steps[0]) && EachKeepsWithin(Next(w, steps[0]), steps[1..]))
  }

  /** In every state of a run all nonces in flight are within the cached nonce exactly when every send keeps them so. */
  lemma {:induction false} InFlightWithinCache(w: World, steps: seq<Step>)
    requires WithinCache(w) && ValidRun(w, steps)
    ensures AlwaysWithin(w, steps) <==> EachKeepsWithin(w, steps)
    decreases |steps|
  {
    if steps != [] {
      WithinExactly(w, steps[0]);
      if KeepsWithin(w, steps[0]) {
        InFlightWithinCache(Next(w, steps[0]), steps[1..]);
      }
    }
  }

  // ---- fresh nonces ----

  predicate Increasing(used: seq<nat>) {
    forall i, j :: 0 <= i < j < |used| ==> used[i] < used[j]
  }

  /** Nonces used in increasing order, all below the cached one. */
  ghost predicate InOrder(used: seq<nat>, c: Cached) {
    && !c.NoCache?
    && Increasing(used)
    && (forall i :: 0 <= i < |used| ==> c.Nonce? && used[i] < c.value)
  }

  predicate Above(used: seq<nat>, n: nat) {
    used == [] || used[|used| - 1] < n
  }

  /** The fresh read is answered by the cache, or by a node that counts past the last nonce used. */
  predicate ReadsPast(used: seq<nat>, c: Cached, rpc: SenderRpc) {
    (c.Nonce? && rpc.cacheRead) || (rpc.counted.Returned? ==> Above(used, rpc.counted.value))
  }

  lemma IncreasingExtended(used: seq<nat>, n: nat)
    ensures Increasing(used + [n]) <==> Increasing(used) && Above(used, n)
  {
    var k := |used|;
    var more := used + [n];
    assert more[k] == n;
    assert forall i :: 0 <= i < k ==> more[i] == used[i];
    if k > 0 {
      assert more[k-1] == used[k-1];
    }
  }

  lemma OrderStays(used: seq<nat>, c: Cached, c': Cached)
    requires InOrder(used, c) && CachedValue(c) <= CachedValue(c')
    requires (c.Nonce? ==> c'.Nonce?) && !c'.NoCache?
    ensures InOrder(used, c')
  {
  }

  lemma OrderExtended(used: seq<nat>, c: Cached, n: nat, c': Cached)
    requires InOrder(used, c) && CachedValue(c) <= CachedValue(c')
    requires (c.Nonce? ==> c'.Nonce?) && !c'.NoCache?
    ensures InOrder(used + [n], c') <==> Above(used, n) && c'.Nonce? && n < c'.value
  {
    IncreasingExtended(used, n);
    assert (used + [n])[|used|] == n;
    assert forall i :: 0 <= i < |used| ==> (used + [n])[i] == used[i];
  }

  /** While the order holds, a fresh read is above every nonce used exactly when it is answered like that. */
  lemma ReadsPastExactly(used: seq<nat>, c: Cached, rpc: SenderRpc)
    requires InOrder(used, c)
    ensures var n := ReadNonce(c, false, rpc.cacheRead, rpc.counted);
            n.Returned? ==> (Above(used, n.value) <==> ReadsPast(used, c, rpc))
  {
  }

  // ---- nonces the node accepted ----

  predicate TakesNow(w: World, s: Step)
    requires Enabled(w, s)
  {
    s.action.Send? && Takes(w.senderQ[s.action.i], w.cached, s.action.senderRpc)
  }

  lemma StepTakes(w: World, s: Step)
    requires Enabled(w, s)
    ensures Next(w, s).taken ==
            if TakesNow(w, s)
            then w.taken + [FreshNonce(w, s)]
            else w.taken
  {
    assert w.taken + [] == w.taken;
  }

  /**
   From where the nonce `n` was taken: the next fresh nonce is read from a cache that was past `n` then
   or that some step since has stored past it, or from a node that counts past it.
   */
  predicate PassedBeforeNext(w: World, steps: seq<Step>, n: nat, stored: bool)
    requires ValidRun(w, steps)
    decreases |steps|
  {
    steps == [] ||
    var s := steps[0];
    if TakesNow(w, s) then
      if w.cached.Nonce? && s.action.senderRpc.cacheRead then stored else n < s.action.senderRpc.counted.value
    else PassedBeforeNext(Next(w, s), steps[1..], n, stored || Stores(w, s, n + 1))
  }

  /** That holds of every fresh nonce taken in the run. */
  predicate EachPassed(w: World, steps: seq<Step>)
    requires ValidRun(w, steps)
    decreases |steps|
  {
    steps == [] ||
    var s, w' := steps[0], Next(w, steps[0]);
    && (TakesNow(w, s) ==>
          var n := FreshNonce(w, s);
          PassedBeforeNext(w', steps[1..], n, Reaches(w.cached, n + 1) || Stores(w, s, n + 1)))
    && EachPassed(w', steps[1..])
  }

  function FreshNonce(w: World, s: Step): nat
    requires Enabled(w, s) && TakesNow(w, s)
  {
    ChooseNonce(w.senderQ[s.action.i], w.cached, s.action.senderRpc).value
  }

  /** And of the last one taken before the run. */
  predicate LastPassed(w: World, steps: seq<Step>)
    requires ValidRun(w, steps)
  {
    w.taken != [] ==>
      var last := w.taken[|w.taken|-1];
      PassedBeforeNext(w, steps, last, Reaches(w.cached, last + 1))
  }

  lemma TakingStep(w: World, steps: seq<Step>)
    requires ValidRun(w, steps) && steps != [] && TakesNow(w, steps[0])
    ensures var s, w' := steps[0], Next(w, steps[0]);
            var n := FreshNonce(w, s);
            && (Increasing(w'.taken) <==> Increasing(w.taken) && LastPassed(w, steps))
            && (LastPassed(w', steps[1..]) <==>
                PassedBeforeNext(w', steps[1..], n, Reaches(w.cached, n + 1) || Stores(w, s, n + 1)))
  {
    var n := FreshNonce(w, steps[0]);
    StepTakes(w, steps[0]);
    IncreasingExtended(w.taken, n);
    StepReaches(w, steps[0], n + 1);
  }

  lemma OtherStep(w: World, steps: seq<Step>)
    requires ValidRun(w, steps) && steps != [] && !TakesNow(w, steps[0])
    ensures Next(w, steps[0]).taken == w.taken
    ensures LastPassed(Next(w, steps[0]), steps[1..]) <==> LastPassed(w, steps)
  {
    StepTakes(w, steps[0]);
    if w.taken != [] {
      StepReaches(w, steps[0], w.taken[|w.taken|-1] + 1);
    }
  }

  /** What was stored since the last fresh nonce shows in the cache when the next one is read. */
  lemma {:induction false} NextTakenAbove(w: World, steps: seq<Step>)
    requires ValidRun(w, steps)
    ensures Increasing(After(w, steps).taken) <==>
            Increasing(w.taken) && LastPassed(w, steps) && EachPassed(w, steps)
    decreases |steps|
  {
    if steps != [] {
      NextTakenAbove(Next(w, steps[0]), steps[1..]);
      if TakesNow(w, steps[0]) {
        TakingStep(w, steps);
      } else {
        OtherStep(w, steps);
      }
    }
  }

  /**
   Over any run from the start, lost answers, crashes and failing caches included, the fresh nonces the
   node takes are strictly increasing exactly when between each and the next some step stores past it,
   or the cache was past it already, or the next is read from a node that counts past it.
   */
  lemma TakenOnceExactly(w: World, steps: seq<Step>)
    requires ValidRun(w, steps) && w.taken == []
    ensures Increasing(After(w, steps).taken) <==> EachPassed(w, steps)
  {
    NextTakenAbove(w, steps);
  }

  /** A step that takes a fresh nonce reads past the ones before and leaves the cached nonce past its own. */
  predicate StoresTaken(w: World, s: Step)
    requires Enabled(w, s)
  {
    TakesNow(w, s) ==>
      var Send(i, rpc, fault) := s.action;
      var task := w.senderQ[i];
      && ReadsPast(w.taken, w.cached, rpc)
      && Accounts(task, w.cached, rpc, fault, FreshNonce(w, s) + 1)
  }

  /** Exactly when a step keeps the accepted fresh nonces in order and below the cached one. */
  lemma TakenExactly(w: World, s: Step)
    requires InOrder(w.taken, w.cached) && Enabled(w, s)
    ensures InOrder(Next(w, s).taken, Next(w, s).cached) <==> StoresTaken(w, s)
  {
    var c' := Next(w, s).cached;
    StepKeepsCached(w, s);
    StepTakes(w, s);
    if TakesNow(w, s) {
      var n := FreshNonce(w, s);
      ReadsPastExactly(w.taken, w.cached, s.action.senderRpc);
      OrderExtended(w.taken, w.cached, n, c');
      AccountsExactly(w, s, n + 1);
    } else {
      OrderStays(w.taken, w.cached, c');
    }
  }

  ghost predicate AlwaysStored(w: World, steps: seq<Step>)
    requires ValidRun(w, steps)
    decreases |steps|
  {
    InOrder(w.taken, w.cached) && (steps == [] || AlwaysStored(Next(w, steps[0]), steps[1..]))
  }

  predicate EachStoresTaken(w: World, steps: seq<Step>)
    requires ValidRun(w, steps)
    decreases |steps|
  {
    steps == [] || (StoresTaken(w, steps[0]) && EachStoresTaken(Next(w, steps[0]), steps[1..]))
  }

  /**
   In every state of a run all accepted fresh nonces are distinct and below the cached one exactly
   when every send that takes one reads past the earlier ones and stores past its own.
   */
  lemma {:induction false} TakenBelowCached(w: World, steps: seq<Step>)
    requires InOrder(w.taken, w.cached) && ValidRun(w, steps)
    ensures AlwaysStored(w, steps) <==> EachStoresTaken(w, steps)
    decreases |steps|
  {
    if steps != [] {
      TakenExactly(w, steps[0]);
      if StoresTaken(w, steps[0]) {
        TakenBelowCached(Next(w, steps[0]), steps[1..]);
      }
    }
  }

  // ---- nonces of successful sends ----

  ghost predicate FreshInOrder(w: World) {
    InOrder(w.freshNonces, w.cached)
  }

  predicate SentFreshNow(w: World, s: Step)
    requires Enabled(w, s)
  {
    s.action.Send? && s.action.fault.Completes? &&
    var task, rpc := w.senderQ[s.action.i], s.action.senderRpc;
    SentFresh(task, rpc, SenderSpec.Run(task, w.cached, rpc))
  }

  lemma SuccessSubmits(task: EventTask, c: Cached, rpc: SenderRpc)
    requires SenderSpec.Run(task, c, rpc).out == Returned(Success)
    ensures Submits(task, c, rpc) && LastError(rpc).None? && Closes(c, rpc)
  {
    RunExactly(task, c, rpc);
    if Submits(task, c, rpc) {
      SubmitExactly(task, ChooseNonce(task, c, rpc).value, rpc);
    }
  }

  /**
   Exactly when one more success keeps the order: its read was answered past the last fresh nonce,
   and the store took effect, or the cache was past its nonce already.
   */
  lemma FreshExactly(w: World, s: Step)
    requires FreshInOrder(w) && Enabled(w, s) && SentFreshNow(w, s)
    ensures var rpc := s.action.senderRpc;
            FreshInOrder(Next(w, s)) <==>
            && ReadsPast(w.freshNonces, w.cached, rpc)
            && (rpc.stored || (w.cached.Nonce? && !rpc.cacheRead && rpc.counted.value < w.cached.value))
  {
    var task := w.senderQ[s.action.i];
    var rpc := s.action.senderRpc;
    SuccessSubmits(task, w.cached, rpc);
    StepKeepsCached(w, s);
    var n := ChooseNonce(task, w.cached, rpc).value;
    ReadsPastExactly(w.freshNonces, w.cached, rpc);
    OrderExtended(w.freshNonces, w.cached, n, Next(w, s).cached);
    AccountsExactly(w, s, n + 1);
  }

  /** The cache answers readNonce(false) and applies the store. */
  predicate CacheAnswers(s: Step) {
    s.action.Send? ==> s.action.senderRpc.cacheRead && s.action.senderRpc.stored
  }

  lemma StepFresh(w: World, s: Step)
    requires FreshInOrder(w) && Enabled(w, s) && CacheAnswers(s)
    ensures FreshInOrder(Next(w, s))
  {
    var w' := Next(w, s);
    StepKeepsCached(w, s);
    OrderStays(w.freshNonces, w.cached, w'.cached);
    if SentFreshNow(w, s) {
      FreshExactly(w, s);
    }
    assert w'.freshNonces == w.freshNonces || SentFreshNow(w, s);
  }

  /**
   Completed sends that took their nonce from an answering cache and succeeded use strictly
   increasing nonces, whatever retries, failures and crashes come between them. A nonce the node
   accepted in a run that did not succeed is not among these.
   */
  lemma {:induction false} FreshNoncesIncrease(w: World, steps: seq<Step>)
    requires FreshInOrder(w) && ValidRun(w, steps)
    requires forall i :: 0 <= i < |steps| ==> CacheAnswers(steps[i])
    ensures FreshInOrder(After(w, steps))
    decreases |steps|
  {
    if steps != [] {
      StepFresh(w, steps[0]);
      FreshNoncesIncrease(Next(w, steps[0]), steps[1..]);
    }
  }
}
