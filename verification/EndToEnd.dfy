/** The watcher feeding the pipeline: what happens to every event of the chain. */
module EndToEnd {
  import opened Types
  import Chain
  import WatcherSpec
  import WatcherRuns
  import opened Pipeline
  import PipelineEvents

  /** The events a run enqueues, in order. */
  function Watched(steps: seq<Step>): seq<EventId> {
    if steps == [] then []
    else (if steps[0].action.Watch? then [steps[0].action.task.event] else []) + Watched(steps[1..])
  }

  lemma NextEnqueued(w: World, s: Step)
    requires Enabled(w, s)
    ensures Next(w, s).enqueued == w.enqueued + if s.action.Watch? then [s.action.task.event] else []
  {
  }

  lemma {:induction false} EnqueuedByRun(w: World, steps: seq<Step>)
    requires ValidRun(w, steps)
    ensures After(w, steps).enqueued == w.enqueued + Watched(steps)
    decreases |steps|
  {
    if steps != [] {
      NextEnqueued(w, steps[0]);
      EnqueuedByRun(Next(w, steps[0]), steps[1..]);
    }
  }

  lemma PipelineKeeps(w: World, steps: seq<Step>)
    requires Initial(w) && ValidRun(w, steps)
    ensures multiset(Watched(steps)) <= PipelineEvents.Copies(After(w, steps))
    ensures multiset(Watched(steps)) == PipelineEvents.Copies(After(w, steps)) <==>
            !PipelineEvents.EverDuplicates(w, steps)
  {
    EnqueuedByRun(w, steps);
    PipelineEvents.NeverLost(w, steps);
    PipelineEvents.ExactlyOneCopy(w, steps);
  }

  lemma CoveredOrUnsent(events: seq<EventId>, sent: seq<EventId>, unsent: seq<EventId>, copies: multiset<EventId>)
    requires WatcherRuns.Covers(events, sent + unsent) && multiset(sent) <= copies
    ensures multiset(events) <= copies + multiset(unsent)
  {
    assert multiset(sent + unsent) == multiset(sent) + multiset(unsent);
  }

  /**
   No event of the chain is lost between the block it occurs in and its settlement: with the watcher
   dying and restarting at will, and the pipeline failing and crashing at any point, every event
   after the first start and up to the watcher's mark is in flight, finished, or explicitly given up,
   but for those the watcher died over after storing the mark and before sending them.
   */
  lemma NoEventLost(chain: Chain.Ledger<EventId>, s: WatcherSpec.State, polls: seq<WatcherSpec.Step>,
                    w: World, steps: seq<Step>)
    requires s == WatcherSpec.Cold(s.start, s.persisted) && WatcherSpec.Honest(chain, s, polls)
    requires Initial(w) && ValidRun(w, steps)
    requires Watched(steps) == WatcherSpec.Enqueued(WatcherSpec.After(s, polls).scans)
    ensures multiset(Chain.EventsIn(chain, s.mark + 1, WatcherSpec.After(s, polls).mark))
         <= PipelineEvents.Copies(After(w, steps)) + multiset(WatcherSpec.Unsent(s, polls))
  {
    WatcherRuns.CrashRecovery(chain, s, polls);
    PipelineKeeps(w, steps);
    CoveredOrUnsent(Chain.EventsIn(chain, s.mark + 1, WatcherSpec.After(s, polls).mark), Watched(steps),
                    WatcherSpec.Unsent(s, polls), PipelineEvents.Copies(After(w, steps)));
  }

  /**
   The copies in the pipeline are exactly the events of the scanned blocks, each once, exactly when
   no step duplicated one.
   */
  lemma EveryEventOnce(chain: Chain.Ledger<EventId>, s: WatcherSpec.State, polls: seq<WatcherSpec.Step>,
                       w: World, steps: seq<Step>)
    requires s.scans == [] && WatcherRuns.AllPolls(polls) && WatcherSpec.Honest(chain, s, polls)
    requires Initial(w) && ValidRun(w, steps)
    requires Watched(steps) == WatcherSpec.Enqueued(WatcherSpec.After(s, polls).scans)
    ensures var scanned := Chain.EventsIn(chain, s.mark + 1, WatcherSpec.After(s, polls).mark);
            PipelineEvents.Copies(After(w, steps)) == multiset(scanned) <==> !PipelineEvents.EverDuplicates(w, steps)
  {
    WatcherRuns.ExactTiling(chain, s, polls);
    PipelineKeeps(w, steps);
  }
}
