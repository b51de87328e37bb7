/** The monitor's event queries: chunks of a thousand blocks, bisected when a node finds too many results. */
module Contract {
  import opened Chain

  const QUERY_RANGE := 1000

  datatype Answer<+E> = Events(events: seq<E>) | TooMany | Error

  type Node<E> = (int, int) -> Answer<E>

  datatype Fetched<+E> = Found(events: seq<E>) | Failed

  function Then<E>(first: Fetched<E>, second: Fetched<E>): Fetched<E> {
    if first.Failed? || second.Failed? then Failed else Found(first.events + second.events)
  }

  /** `divRound` by two: halves are rounded up. */
  function Middle(from: int, end: int): int {
    (from + end + 1) / 2
  }

  /** The node answers every range of at most two blocks, empty and inverted ones included. */
  ghost predicate AnswersNarrow<E(!new)>(node: Node<E>) {
    forall from, end :: end <= from + 1 ==> !node(from, end).TooMany?
  }

  ghost predicate Sound<E(!new)>(node: Node<E>, chain: Ledger<E>) {
    forall from, end :: node(from, end).Events? ==> node(from, end).events == EventsIn(chain, from, end)
  }

  /** The halves are narrower than a refused range, so the recursion ends. */
  function GetPastEvents<E(!new)>(node: Node<E>, from: int, end: int): Fetched<E>
    requires AnswersNarrow(node)
    decreases if end < from then 0 else end - from
  {
    match node(from, end)
    case Events(es) => Found(es)
    case Error => Failed
    case TooMany =>
      var middle := Middle(from, end);
      Then(GetPastEvents(node, from, middle), GetPastEvents(node, middle + 1, end))
  }

  /** Bisection is transparent: what it finds is what one unlimited query would return, in order. */
  lemma {:induction false} BisectionTransparent<E(!new)>(node: Node<E>, chain: Ledger<E>, from: int, end: int)
    requires AnswersNarrow(node) && Sound(node, chain)
    ensures var f := GetPastEvents(node, from, end); f.Found? ==> f.events == EventsIn(chain, from, end)
    ensures (forall a, b :: !node(a, b).Error?) ==> GetPastEvents(node, from, end).Found?
    decreases if end < from then 0 else end - from
  {
    if node(from, end).TooMany? {
      var middle := Middle(from, end);
      BisectionTransparent(node, chain, from, middle);
      BisectionTransparent(node, chain, middle + 1, end);
      EventsSplit(chain, from, middle, end);
    }
  }

  // ---- exactly when the recursion ends ----

  datatype Partial<+E> = Done(result: Fetched<E>) | Running

  /** The recursion cut off below `depth` levels. An error in the first half ends the query at once. */
  function Bisect<E>(depth: nat, node: Node<E>, from: int, end: int): Partial<E> {
    if depth == 0 then Running
    else
      match node(from, end)
      case Events(es) => Done(Found(es))
      case Error => Done(Failed)
      case TooMany =>
        var middle := Middle(from, end);
        match Bisect(depth - 1, node, from, middle)
        case Running => Running
        case Done(Failed) => Done(Failed)
        case Done(first) =>
          match Bisect(depth - 1, node, middle + 1, end)
          case Running => Running
          case Done(second) => Done(Then(first, second))
  }

  /** The query meets a refused range of one or two blocks before it meets an error. */
  predicate MeetsRefusal<E>(node: Node<E>, from: int, end: int)
    requires from <= end
    decreases end - from
  {
    node(from, end).TooMany? &&
    (end <= from + 1 ||
     var middle := Middle(from, end);
     || MeetsRefusal(node, from, middle)
     || (!MeetsError(node, from, middle) && MeetsRefusal(node, middle + 1, end)))
  }

  /** The query meets an error before it meets a refused range of one or two blocks. */
  predicate MeetsError<E>(node: Node<E>, from: int, end: int)
    requires from <= end
    decreases end - from
  {
    node(from, end).Error? ||
    (node(from, end).TooMany? && end > from + 1 &&
     var middle := Middle(from, end);
     || MeetsError(node, from, middle)
     || (!MeetsRefusal(node, from, middle) && MeetsError(node, middle + 1, end)))
  }

  /** Bisecting one block or two asks for the same range again: rounding up makes no progress. */
  lemma NarrowMiddle(from: int, end: int)
    requires from <= end
    ensures Middle(from, end) < end <==> from + 1 < end
    ensures end <= from + 1 ==> Middle(from, end) == end
    ensures from + end <= 2 * Middle(from, end) <= from + end + 1
  {
  }

  lemma {:induction false} BisectOutcome<E>(depth: nat, node: Node<E>, from: int, end: int)
    requires from <= end
    ensures MeetsRefusal(node, from, end) ==> Bisect(depth, node, from, end).Running?
    ensures Bisect(depth, node, from, end) == Done(Failed) ==> MeetsError(node, from, end)
    ensures Bisect(depth, node, from, end).Done? && Bisect(depth, node, from, end).result.Found? ==>
              !MeetsError(node, from, end)
    ensures !MeetsRefusal(node, from, end) && depth > end - from ==> Bisect(depth, node, from, end).Done?
    decreases depth
  {
    if depth > 0 && node(from, end).TooMany? {
      var middle := Middle(from, end);
      NarrowMiddle(from, end);
      BisectOutcome(depth - 1, node, from, middle);
      if from + 1 < end {
        BisectOutcome(depth - 1, node, middle + 1, end);
      }
    }
  }

  /**
   Exactly when a query of a proper range ends: when it does not meet a refused range of at most
   two blocks. On such a range the recursion never ends, since the first half is the range itself.
   */
  lemma EndsExactly<E>(node: Node<E>, from: int, end: int)
    requires from <= end
    ensures (exists depth :: Bisect(depth, node, from, end).Done?) <==> !MeetsRefusal(node, from, end)
    ensures end == from + 1 && node(from, end).TooMany? ==> forall depth :: Bisect(depth, node, from, end).Running?
  {
    BisectOutcome(end - from + 1, node, from, end);
    forall depth: nat ensures MeetsRefusal(node, from, end) ==> Bisect(depth, node, from, end).Running? {
      BisectOutcome(depth, node, from, end);
    }
  }

  ghost predicate EndsWith<E>(p: Partial<E>, events: seq<E>) {
    p == Done(Found(events))
  }

  /** A refused query that ends with events has found those of both halves. */
  lemma BisectHalves<E>(depth: nat, node: Node<E>, from: int, end: int, events: seq<E>)
    returns (first: seq<E>, second: seq<E>)
    requires depth > 0 && node(from, end).TooMany? && EndsWith(Bisect(depth, node, from, end), events)
    ensures EndsWith(Bisect(depth - 1, node, from, Middle(from, end)), first)
    ensures EndsWith(Bisect(depth - 1, node, Middle(from, end) + 1, end), second)
    ensures events == first + second
  {
    first := Bisect(depth - 1, node, from, Middle(from, end)).result.events;
    second := Bisect(depth - 1, node, Middle(from, end) + 1, end).result.events;
  }

  lemma NarrowRefusal<E>(depth: nat, node: Node<E>, from: int, end: int)
    requires from <= end <= from + 1 && node(from, end).TooMany?
    ensures Bisect(depth, node, from, end).Running?
  {
    BisectOutcome(depth, node, from, end);
  }

  /**
   Whatever the node refuses, a query of a proper range that ends with events has found exactly those
   an unlimited query would return, in order.
   */
  lemma {:induction false} BisectSound<E(!new)>(depth: nat, node: Node<E>, chain: Ledger<E>, from: int, end: int,
                                                events: seq<E>)
    requires Sound(node, chain) && from <= end && EndsWith(Bisect(depth, node, from, end), events)
    ensures events == EventsIn(chain, from, end)
    decreases depth
  {
    if node(from, end).TooMany? {
      if end <= from + 1 {
        NarrowRefusal(depth, node, from, end);
        assert false;
      }
      var middle := Middle(from, end);
      var first, second := BisectHalves(depth, node, from, end, events);
      BisectSound(depth - 1, node, chain, from, middle, first);
      BisectSound(depth - 1, node, chain, middle + 1, end, second);
      EventsSplit(chain, from, middle, end);
    }
  }

  /** When narrow ranges are answered, cutting the recursion at the width of the range changes nothing. */
  lemma {:induction false} BisectIsQuery<E(!new)>(depth: nat, node: Node<E>, from: int, end: int)
    requires AnswersNarrow(node) && from <= end < from + depth
    ensures Bisect(depth, node, from, end) == Done(GetPastEvents(node, from, end))
    decreases depth
  {
    if node(from, end).TooMany? {
      var middle := Middle(from, end);
      BisectIsQuery(depth - 1, node, from, middle);
      BisectIsQuery(depth - 1, node, middle + 1, end);
    }
  }

  // ---- chunks ----

  /** Consecutive ranges that cover a range exactly; an inverted range is one inverted query. */
  predicate Tiles(ranges: seq<(int, int)>, from: int, end: int) {
    ranges != [] &&
    var (a, b) := ranges[|ranges|-1];
    && b == end
    && (|ranges| == 1 ==> a == from)
    && (|ranges| > 1 ==> from < a <= b && Tiles(ranges[..|ranges|-1], from, a - 1))
  }

  /** The ranges the iterator queries, in order. */
  method PastEventsRanges(fromBlock: int, toBlock: int) returns (ranges: seq<(int, int)>)
    ensures Tiles(ranges, fromBlock, toBlock)
    ensures forall r :: r in ranges ==> r.1 - r.0 <= 1000
    ensures forall k :: 0 <= k < |ranges| - 1 ==> ranges[k].1 == fromBlock + 1000 * (k + 1) < toBlock
    ensures toBlock <= fromBlock + 1000 ==> ranges == [(fromBlock, toBlock)]
  {
    ranges := [];
    var from := fromBlock;
    var end := fromBlock + QUERY_RANGE;
    while end < toBlock
      invariant ranges == [] ==> from == fromBlock
      invariant ranges != [] ==> Tiles(ranges, fromBlock, from - 1) && fromBlock < from <= toBlock
      invariant ranges == [] <==> end == fromBlock + QUERY_RANGE
      invariant end - QUERY_RANGE <= from <= end - QUERY_RANGE + 1
      invariant from <= toBlock || ranges == []
      invariant forall r :: r in ranges ==> r.1 - r.0 <= QUERY_RANGE
      invariant end == fromBlock + 1000 * (|ranges| + 1)
      invariant forall k :: 0 <= k < |ranges| ==> ranges[k].1 == fromBlock + 1000 * (k + 1) < toBlock
      invariant fromBlock + QUERY_RANGE <= end
      invariant ranges != [] ==> fromBlock + QUERY_RANGE < toBlock
      decreases toBlock - end
    {
      assert (ranges + [(from, end)])[..|ranges|] == ranges;
      ranges := ranges + [(from, end)];
      from := end + 1;
      end := end + QUERY_RANGE;
    }
    assert (ranges + [(from, toBlock)])[..|ranges|] == ranges;
    ranges := ranges + [(from, toBlock)];
  }

  function FetchAll<E(!new)>(node: Node<E>, ranges: seq<(int, int)>): Fetched<E>
    requires AnswersNarrow(node)
  {
    if ranges == [] then Found([])
    else
      Then(FetchAll(node, ranges[..|ranges|-1]), GetPastEvents(node, ranges[|ranges|-1].0, ranges[|ranges|-1].1))
  }

  /** Chunking and bisection together are transparent, for every range, inverted ones included. */
  lemma {:induction false} ChunksTransparent<E(!new)>(node: Node<E>, chain: Ledger<E>, ranges: seq<(int, int)>,
                                                      from: int, end: int)
    requires AnswersNarrow(node) && Sound(node, chain) && Tiles(ranges, from, end)
    ensures var f := FetchAll(node, ranges); f.Found? ==> f.events == EventsIn(chain, from, end)
    decreases |ranges|
  {
    var (a, b) := ranges[|ranges|-1];
    BisectionTransparent(node, chain, a, b);
    if |ranges| > 1 {
      ChunksTransparent(node, chain, ranges[..|ranges|-1], from, a - 1);
      EventsSplit(chain, from, a - 1, end);
    } else {
      assert ranges[..|ranges|-1] == [];
    }
  }
}
