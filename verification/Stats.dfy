/** The monitor's running totals: incremental rounds over a cache must equal one scan of everything. */
module Stats {
  import opened Wrappers
  import opened Chain
  import opened Contract
  import opened Arithmetic

  /** An event as the totals see it; an absent or empty recipient is `None`. */
  datatype LogEvent = LogEvent(name: string, value: nat, recipient: Option<string>, sender: string)

  /** Users are a set kept in insertion order, so a sequence without repeats. */
  datatype Totals = Totals(value: nat, length: nat, users: seq<string>)

  const ZERO := Totals(0, 0, [])

  function AddUser(users: seq<string>, user: string): seq<string> {
    if user in users then users else users + [user]
  }

  function UserOf(e: LogEvent): Option<string> {
    if e.recipient.Some? then e.recipient
    else if e.name == "Transfer" then Some(e.sender) else None
  }

  function Count(t: Totals, e: LogEvent): Totals {
    Totals(t.value + e.value, t.length + 1,
           if UserOf(e).Some? then AddUser(t.users, UserOf(e).value) else t.users)
  }

  function CountAll(t: Totals, events: seq<LogEvent>): Totals {
    if events == [] then t else Count(CountAll(t, events[..|events|-1]), events[|events|-1])
  }

  lemma {:induction false} CountConcat(t: Totals, a: seq<LogEvent>, b: seq<LogEvent>)
    ensures CountAll(t, a + b) == CountAll(CountAll(t, a), b)
    decreases |b|
  {
    if b == [] {
      assert a + b == a;
    } else {
      assert (a + b)[..|a + b|-1] == a + b[..|b|-1];
      CountConcat(t, a, b[..|b|-1]);
    }
  }

  // ---- the totals mean what they say ----

  function ValueSum(events: seq<LogEvent>): nat {
    if events == [] then 0 else ValueSum(events[..|events|-1]) + events[|events|-1].value
  }

  predicate NoRepeats(users: seq<string>) {
    forall i, j :: 0 <= i < j < |users| ==> users[i] != users[j]
  }

  /** An event counts its recipient, or, named Transfer and without one, its sender. */
  predicate CountsUser(e: LogEvent, u: string) {
    e.recipient == Some(u) || (e.recipient == None && e.name == "Transfer" && e.sender == u)
  }

  lemma UserExactly(e: LogEvent, u: string)
    ensures UserOf(e) == Some(u) <==> CountsUser(e, u)
  {
  }

  /** The totals of a list of events: its value sum, its length, and exactly its users, each once. */
  lemma {:induction false} TotalsMeaning(events: seq<LogEvent>)
    ensures var t := CountAll(ZERO, events);
            && t.value == ValueSum(events)
            && t.length == |events|
            && NoRepeats(t.users)
            && (forall u :: u in t.users <==> exists i :: 0 <= i < |events| && CountsUser(events[i], u))
  {
    if events != [] {
      var before, last := events[..|events|-1], events[|events|-1];
      TotalsMeaning(before);
      var t := CountAll(ZERO, events);
      forall u ensures u in t.users <==> exists i :: 0 <= i < |events| && CountsUser(events[i], u) {
        UserExactly(last, u);
        assert u in t.users <==> u in CountAll(ZERO, before).users || CountsUser(last, u);
        if u in CountAll(ZERO, before).users {
          var i :| 0 <= i < |before| && CountsUser(before[i], u);
          assert CountsUser(events[i], u);
        }
        if i :| 0 <= i < |events| && CountsUser(events[i], u) {
          assert i < |before| ==> CountsUser(before[i], u);
        }
      }
    }
  }

  // ---- the store ----

  datatype Side = Home | Foreign

  datatype Series = HomeDeposit | HomeWithdrawal | ForeignDeposit | ForeignWithdrawal

  function SideOf(s: Series): Side {
    if s.HomeDeposit? || s.HomeWithdrawal? then Home else Foreign
  }

  /** The stored form of totals is their value, length and users as an array. */
  function AddUsers(users: seq<string>, more: seq<string>): seq<string> {
    if more == [] then users else AddUser(AddUsers(users, more[..|more|-1]), more[|more|-1])
  }

  function InitCacheObject(stored: Option<Totals>): Totals {
    if stored.None? then ZERO else stored.value.(users := AddUsers([], stored.value.users))
  }

  lemma {:induction false} AddUsersKeeps(users: seq<string>)
    requires NoRepeats(users)
    ensures AddUsers([], users) == users
  {
    if users != [] {
      var before := users[..|users|-1];
      AddUsersKeeps(before);
      assert users == before + [users[|users|-1]];
    }
  }

  /** Totals survive being stored and loaded. */
  lemma StoreRoundTrip(events: seq<LogEvent>)
    ensures InitCacheObject(Some(CountAll(ZERO, events))) == CountAll(ZERO, events)
  {
    TotalsMeaning(events);
    AddUsersKeeps(CountAll(ZERO, events).users);
  }

  class Redis {
    var results: map<Series, Totals>
    var blocks: map<Side, int>

    constructor ()
      ensures results == map[] && blocks == map[]
    {
      results, blocks := map[], map[];
    }

    method GetProcessedResult(name: Series) returns (obj: Option<Totals>)
      ensures obj == if name in results then Some(results[name]) else None
    {
      obj := if name in results then Some(results[name]) else None;
    }

    method StoreProcessedResult(name: Series, obj: Totals)
      modifies this`results
      ensures results == old(results)[name := obj]
    {
      results := results[name := obj];
    }

    method GetProcessedBlock(side: Side) returns (block: Option<int>)
      ensures block == if side in blocks then Some(blocks[side]) else None
    {
      block := if side in blocks then Some(blocks[side]) else None;
    }

    method StoreProcessedBlock(home: int, foreign: int)
      modifies this`blocks
      ensures blocks == old(blocks)[Home := home][Foreign := foreign]
    {
      blocks := blocks[Home := home][Foreign := foreign];
    }
  }

  // ---- one round ----

  /** The totals object a round fills in place. */
  class Tally {
    var value: nat
    var length: nat
    var users: seq<string>

    constructor (t: Totals)
      ensures View() == t
    {
      value, length, users := t.value, t.length, t.users;
    }

    function View(): Totals
      reads this
    {
      Totals(value, length, users)
    }
  }

  /** Adds the events of a block range, query by query; false when a query failed. */
  method ProcessEvents(node: Node<LogEvent>, from: int, end: int, tally: Tally, ghost chain: Ledger<LogEvent>)
    returns (ok: bool)
    requires AnswersNarrow(node) && Sound(node, chain)
    modifies tally
    ensures ok ==> tally.View() == CountAll(old(tally.View()), EventsIn(chain, from, end))
    ensures (forall a, b :: !node(a, b).Error?) ==> ok
  {
    var ranges := PastEventsRanges(from, end);
    for k := 0 to |ranges|
      invariant FetchAll(node, ranges[..k]).Found?
      invariant tally.View() == CountAll(old(tally.View()), FetchAll(node, ranges[..k]).events)
    {
      assert ranges[..k+1][..k] == ranges[..k];
      var events := GetPastEvents(node, ranges[k].0, ranges[k].1);
      BisectionTransparent(node, chain, ranges[k].0, ranges[k].1);
      if events.Failed? {
        return false;
      }
      CountConcat(old(tally.View()), FetchAll(node, ranges[..k]).events, events.events);
      AddChunk(events.events, tally);
    }
    assert ranges[..|ranges|] == ranges;
    ChunksTransparent(node, chain, ranges, from, end);
    ok := true;
  }

  /** The inner loop: the length grows by the whole chunk first, then each event adds value and user. */
  method AddChunk(events: seq<LogEvent>, tally: Tally)
    modifies tally
    ensures tally.View() == CountAll(old(tally.View()), events)
  {
    tally.length := tally.length + |events|;
    for i := 0 to |events|
      invariant tally.View() == CountAll(old(tally.View()), events[..i]).(length := old(tally.length) + |events|)
      invariant CountAll(old(tally.View()), events[..i]).length == old(tally.length) + i
    {
      assert events[..i+1][..i] == events[..i];
      var event := events[i];
      tally.value := tally.value + event.value;
      if event.recipient.Some? {
        tally.users := AddUser(tally.users, event.recipient.value);
      } else if event.name == "Transfer" {
        tally.users := AddUser(tally.users, event.sender);
      }
    }
    assert events[..|events|] == events;
  }

  /** The store as a value. */
  datatype Store = Store(results: map<Series, Totals>, blocks: map<Side, int>)

  type Chains = Series -> Ledger<LogEvent>

  function StartBlock(blocks: map<Side, int>, side: Side, deployed: Side -> int): int {
    if side in blocks then blocks[side] + 1 else deployed(side)
  }

  function NewTotals(st: Store, s: Series, deployed: Side -> int, head: int, chains: Chains): Totals {
    CountAll(InitCacheObject(if s in st.results then Some(st.results[s]) else None),
             EventsIn(chains(s), StartBlock(st.blocks, SideOf(s), deployed), head))
  }

  /** The store after a round of which only some writes took effect. */
  function Written(st: Store, deployed: Side -> int, heads: Side -> int, chains: Chains,
                   stored: set<Series>, marked: set<Side>): Store
  {
    Store(map s | s in st.results.Keys + stored ::
            if s in stored then NewTotals(st, s, deployed, heads(SideOf(s)), chains) else st.results[s],
          map d | d in st.blocks.Keys + marked :: if d in marked then heads(d) else st.blocks[d])
  }

  const ALL_SERIES := {HomeDeposit, HomeWithdrawal, ForeignDeposit, ForeignWithdrawal}
  const BOTH_SIDES := {Home, Foreign}

  /** One series of a round: its cached totals are loaded, brought up to the head, and returned. */
  method UpdateSeries(redis: Redis, name: Series, node: Node<LogEvent>, deployed: Side -> int, head: int,
                      ghost chains: Chains)
    returns (totals: Outcome<Totals>)
    requires AnswersNarrow(node) && Sound(node, chains(name))
    ensures totals.Returned? ==>
              totals.value == NewTotals(Store(redis.results, redis.blocks), name, deployed, head, chains)
    ensures (forall a, b :: !node(a, b).Error?) ==> totals.Returned?
  {
    var stored := redis.GetProcessedResult(name);
    var last := redis.GetProcessedBlock(SideOf(name));
    var start := if last.None? then deployed(SideOf(name)) else last.value + 1;
    var tally := new Tally(InitCacheObject(stored));
    var ok := ProcessEvents(node, start, head, tally, chains(name));
    totals := if ok then Returned(tally.View()) else Threw;
  }

  method StoreAll(redis: Redis, totals: map<Series, Totals>, heads: (int, int))
    requires totals.Keys == ALL_SERIES
    modifies redis
    ensures redis.results.Keys == old(redis.results.Keys) + ALL_SERIES
    ensures forall s :: s in redis.results ==> s in totals && redis.results[s] == totals[s]
    ensures redis.blocks.Keys == old(redis.blocks.Keys) + BOTH_SIDES
    ensures forall d :: d in redis.blocks ==> redis.blocks[d] == HeadsOf(heads)(d)
  {
    redis.StoreProcessedResult(HomeDeposit, totals[HomeDeposit]);
    redis.StoreProcessedResult(HomeWithdrawal, totals[HomeWithdrawal]);
    redis.StoreProcessedResult(ForeignDeposit, totals[ForeignDeposit]);
    redis.StoreProcessedResult(ForeignWithdrawal, totals[ForeignWithdrawal]);
    redis.StoreProcessedBlock(heads.0, heads.1);
    forall s, d ensures s in ALL_SERIES && d in BOTH_SIDES {
      SeriesAndSides(s, d);
    }
  }

  function HeadsOf(heads: (int, int)): Side -> int {
    (d: Side) => if d.Home? then heads.0 else heads.1
  }

  lemma SeriesAndSides(s: Series, d: Side)
    ensures s in ALL_SERIES && d in BOTH_SIDES
  {
    match s { case HomeDeposit => case HomeWithdrawal => case ForeignDeposit => case ForeignWithdrawal => }
    match d { case Home => case Foreign => }
  }

  lemma IsWritten(st: Store, st': Store, deployed: Side -> int, heads: Side -> int, chains: Chains)
    requires st'.results.Keys == st.results.Keys + ALL_SERIES && st'.blocks.Keys == st.blocks.Keys + BOTH_SIDES
    requires forall s :: s in st'.results ==> st'.results[s] == NewTotals(st, s, deployed, heads(SideOf(s)), chains)
    requires forall d :: d in st'.blocks ==> st'.blocks[d] == heads(d)
    ensures st' == Written(st, deployed, heads, chains, ALL_SERIES, BOTH_SIDES)
  {
    forall s, d ensures s in ALL_SERIES && d in BOTH_SIDES {
      SeriesAndSides(s, d);
    }
    var written := Written(st, deployed, heads, chains, ALL_SERIES, BOTH_SIDES);
    assert st'.results == written.results;
    assert st'.blocks == written.blocks;
  }

  /** The four series of a round, in the order they are fetched; the first failing query ends it. */
  method UpdateAll(redis: Redis, deployed: Side -> int, heads: (int, int), nodes: Series -> Node<LogEvent>,
                   ghost chains: Chains)
    returns (totals: Outcome<map<Series, Totals>>)
    requires forall s :: AnswersNarrow(nodes(s)) && Sound(nodes(s), chains(s))
    ensures totals.Returned? ==>
              && totals.value.Keys == ALL_SERIES
              && forall s :: s in totals.value ==>
                   totals.value[s] ==
                   NewTotals(Store(redis.results, redis.blocks), s, deployed, HeadsOf(heads)(SideOf(s)), chains)
    ensures (forall s, a, b :: !nodes(s)(a, b).Error?) ==> totals.Returned?
  {
    var homeDeposit := UpdateSeries(redis, HomeDeposit, nodes(HomeDeposit), deployed, heads.0, chains);
    if homeDeposit.Threw? {
      return Threw;
    }
    var foreignDeposit := UpdateSeries(redis, ForeignDeposit, nodes(ForeignDeposit), deployed, heads.1, chains);
    if foreignDeposit.Threw? {
      return Threw;
    }
    var homeWithdrawal := UpdateSeries(redis, HomeWithdrawal, nodes(HomeWithdrawal), deployed, heads.0, chains);
    if homeWithdrawal.Threw? {
      return Threw;
    }
    var foreignWithdrawal :=
      UpdateSeries(redis, ForeignWithdrawal, nodes(ForeignWithdrawal), deployed, heads.1, chains);
    if foreignWithdrawal.Threw? {
      return Threw;
    }
    totals := Returned(map[HomeDeposit := homeDeposit.value, HomeWithdrawal := homeWithdrawal.value,
                           ForeignDeposit := foreignDeposit.value, ForeignWithdrawal := foreignWithdrawal.value]);
  }

  /** One round. It throws, and stores nothing, when the heads or any query cannot be had. */
  method Round(redis: Redis, deployed: Side -> int, heads: Outcome<(int, int)>, nodes: Series -> Node<LogEvent>,
               ghost chains: Chains)
    returns (ok: bool)
    requires forall s :: AnswersNarrow(nodes(s)) && Sound(nodes(s), chains(s))
    modifies redis
    ensures !ok ==> redis.results == old(redis.results) && redis.blocks == old(redis.blocks)
    ensures ok ==> heads.Returned?
    ensures heads.Returned? && (forall s, a, b :: !nodes(s)(a, b).Error?) ==> ok
    ensures ok ==> Store(redis.results, redis.blocks) ==
                   Written(Store(old(redis.results), old(redis.blocks)), deployed, HeadsOf(heads.value), chains,
                           ALL_SERIES, BOTH_SIDES)
  {
    if heads.Threw? {
      return false;
    }
    var totals := UpdateAll(redis, deployed, heads.value, nodes, chains);
    if totals.Threw? {
      return false;
    }
    StoreAll(redis, totals.value, heads.value);
    IsWritten(Store(old(redis.results), old(redis.blocks)), Store(redis.results, redis.blocks), deployed,
              HeadsOf(heads.value), chains);
    ok := true;
  }

  // ---- totals and marks ----

  lemma CountAllLength(t: Totals, events: seq<LogEvent>)
    ensures CountAll(t, events).length == t.length + |events|
  {
  }

  /** Totals up to one block are the totals up to another exactly when no event lies between them. */
  lemma TotalsBetween(chain: Ledger<LogEvent>, from: int, m: int, k: int)
    requires from - 1 <= m && from - 1 <= k
    ensures CountAll(ZERO, EventsIn(chain, from, m)) == CountAll(ZERO, EventsIn(chain, from, k)) <==>
            EventsIn(chain, Min(m, k) + 1, Max(m, k)) == []
  {
    var lo, hi := Min(m, k), Max(m, k);
    EventsSplit(chain, from, lo, hi);
    var head, tail := EventsIn(chain, from, lo), EventsIn(chain, lo + 1, hi);
    CountAllLength(ZERO, head);
    CountAllLength(ZERO, head + tail);
    if tail == [] {
      assert head + tail == head;
    }
  }

  function Mark(st: Store, s: Series, deployed: Side -> int): int {
    StartBlock(st.blocks, SideOf(s), deployed) - 1
  }

  function StoredTotals(st: Store, s: Series): Totals {
    if s in st.results then st.results[s] else ZERO
  }

  /**
   The stored totals of a series, none at first, are those of one scan from the deployment block to
   the stored mark, which at first is the block before deployment.
   */
  ghost predicate SeriesCurrent(st: Store, s: Series, deployed: Side -> int, chains: Chains) {
    && deployed(SideOf(s)) - 1 <= Mark(st, s, deployed)
    && StoredTotals(st, s) == CountAll(ZERO, EventsIn(chains(s), deployed(SideOf(s)), Mark(st, s, deployed)))
  }

  ghost predicate Current(st: Store, deployed: Side -> int, chains: Chains) {
    forall s :: SeriesCurrent(st, s, deployed, chains)
  }

  /** Totals are stored for a series exactly when a mark is for its side. */
  predicate Paired(st: Store) {
    forall s :: s in st.results <==> SideOf(s) in st.blocks
  }

  /** What a round computes for a series covers everything up to the later of its mark and the head. */
  lemma NewTotalsCover(st: Store, s: Series, deployed: Side -> int, head: int, chains: Chains)
    requires SeriesCurrent(st, s, deployed, chains)
    ensures NewTotals(st, s, deployed, head, chains) ==
            CountAll(ZERO, EventsIn(chains(s), deployed(SideOf(s)), Max(Mark(st, s, deployed), head)))
  {
    var from, mark := deployed(SideOf(s)), Mark(st, s, deployed);
    var chain := chains(s);
    var seen := EventsIn(chain, from, mark);
    StoreRoundTrip(seen);
    assert InitCacheObject(if s in st.results then Some(st.results[s]) else None) == CountAll(ZERO, seen);
    CountConcat(ZERO, seen, EventsIn(chain, mark + 1, head));
    if mark <= head {
      EventsSplit(chain, from, mark, head);
    } else {
      assert seen + [] == seen;
    }
  }

  /** What a round, of which only some writes took effect, leaves of a series. */
  lemma SeriesWritten(st: Store, s: Series, deployed: Side -> int, heads: Side -> int, chains: Chains,
                      stored: set<Series>, marked: set<Side>)
    requires SeriesCurrent(st, s, deployed, chains)
    ensures var mark, head := Mark(st, s, deployed), heads(SideOf(s));
            var st' := Written(st, deployed, heads, chains, stored, marked);
            && Mark(st', s, deployed) == (if SideOf(s) in marked then head else mark)
            && StoredTotals(st', s) ==
               CountAll(ZERO, EventsIn(chains(s), deployed(SideOf(s)), if s in stored then Max(mark, head) else mark))
  {
    if s in stored {
      NewTotalsCover(st, s, deployed, heads(SideOf(s)), chains);
    }
  }

  lemma CurrentExactly(st: Store, s: Series, deployed: Side -> int, chains: Chains, covers: int, names: int)
    requires Mark(st, s, deployed) == names && deployed(SideOf(s)) - 1 <= covers
    requires StoredTotals(st, s) == CountAll(ZERO, EventsIn(chains(s), deployed(SideOf(s)), covers))
    ensures SeriesCurrent(st, s, deployed, chains) <==>
            && deployed(SideOf(s)) - 1 <= names
            && EventsIn(chains(s), Min(covers, names) + 1, Max(covers, names)) == []
  {
    if deployed(SideOf(s)) - 1 <= names {
      TotalsBetween(chains(s), deployed(SideOf(s)), covers, names);
    }
  }

  /**
   Exactly when a round leaves a series current, the first round included, whatever head it saw and
   whichever of its writes took effect: when its mark then names no block before deployment, and no
   event lies between the block its totals then cover and the block its mark names.
   */
  lemma RoundExactly(st: Store, s: Series, deployed: Side -> int, heads: Side -> int, chains: Chains,
                     stored: set<Series>, marked: set<Side>)
    requires SeriesCurrent(st, s, deployed, chains)
    ensures var mark, head := Mark(st, s, deployed), heads(SideOf(s));
            var covers := if s in stored then Max(mark, head) else mark;
            var names := if SideOf(s) in marked then head else mark;
            SeriesCurrent(Written(st, deployed, heads, chains, stored, marked), s, deployed, chains) <==>
            && deployed(SideOf(s)) - 1 <= names
            && EventsIn(chains(s), Min(covers, names) + 1, Max(covers, names)) == []
  {
    var mark, head := Mark(st, s, deployed), heads(SideOf(s));
    var covers := if s in stored then Max(mark, head) else mark;
    var names := if SideOf(s) in marked then head else mark;
    SeriesWritten(st, s, deployed, heads, chains, stored, marked);
    CurrentExactly(Written(st, deployed, heads, chains, stored, marked), s, deployed, chains, covers, names);
  }

  /** A first round that stores its totals but not its mark makes the next round count every event twice. */
  lemma TornFirstRound(s: Series, deployed: Side -> int, heads: Side -> int, chains: Chains)
    requires deployed(SideOf(s)) <= heads(SideOf(s))
    ensures var torn := Written(Store(map[], map[]), deployed, heads, chains, ALL_SERIES, {});
            NewTotals(torn, s, deployed, heads(SideOf(s)), chains).length ==
            2 * |EventsIn(chains(s), deployed(SideOf(s)), heads(SideOf(s)))|
  {
    var events := EventsIn(chains(s), deployed(SideOf(s)), heads(SideOf(s)));
    SeriesAndSides(s, Home);
    StoreRoundTrip(events);
    CountAllLength(ZERO, events);
    CountAllLength(CountAll(ZERO, events), events);
  }

  /** A first round counts every series from the deployment block of its own chain to that chain's head. */
  lemma FirstRound(deployed: Side -> int, heads: Side -> int, chains: Chains)
    ensures Current(Store(map[], map[]), deployed, chains)
    ensures var st := Written(Store(map[], map[]), deployed, heads, chains, ALL_SERIES, BOTH_SIDES);
            && st.blocks == map[Home := heads(Home), Foreign := heads(Foreign)]
            && st.results.Keys == {HomeDeposit, HomeWithdrawal, ForeignDeposit, ForeignWithdrawal}
            && st.results[HomeDeposit] ==
               CountAll(ZERO, EventsIn(chains(HomeDeposit), deployed(Home), heads(Home)))
            && st.results[HomeWithdrawal] ==
               CountAll(ZERO, EventsIn(chains(HomeWithdrawal), deployed(Home), heads(Home)))
            && st.results[ForeignDeposit] ==
               CountAll(ZERO, EventsIn(chains(ForeignDeposit), deployed(Foreign), heads(Foreign)))
            && st.results[ForeignWithdrawal] ==
               CountAll(ZERO, EventsIn(chains(ForeignWithdrawal), deployed(Foreign), heads(Foreign)))
  {
  }

  // ---- rounds ----

  datatype Attempt = Stores(home: int, foreign: int) | Throws

  function HeadOf(a: Attempt, side: Side): int
    requires a.Stores?
  {
    if side.Home? then a.home else a.foreign
  }

  function Attempted(st: Store, a: Attempt, deployed: Side -> int, chains: Chains): Store {
    if a.Throws? then st
    else Written(st, deployed, (d => HeadOf(a, d)), chains, ALL_SERIES, BOTH_SIDES)
  }

  function AfterRounds(st: Store, rounds: seq<Attempt>, deployed: Side -> int, chains: Chains): Store {
    if rounds == [] then st
    else Attempted(AfterRounds(st, rounds[..|rounds|-1], deployed, chains), rounds[|rounds|-1], deployed, chains)
  }

  /** No head is behind the stored mark, nor, at first, behind the deployment block. */
  predicate HeadsAdvance(st: Store, rounds: seq<Attempt>, deployed: Side -> int, chains: Chains) {
    forall k, d :: 0 <= k < |rounds| && rounds[k].Stores? ==>
      StartBlock(AfterRounds(st, rounds[..k], deployed, chains).blocks, d, deployed) - 1 <= HeadOf(rounds[k], d)
  }

  lemma AttemptCurrent(st: Store, a: Attempt, deployed: Side -> int, chains: Chains)
    requires Current(st, deployed, chains)
    requires a.Stores? ==> forall d :: StartBlock(st.blocks, d, deployed) - 1 <= HeadOf(a, d)
    ensures Current(Attempted(st, a, deployed, chains), deployed, chains)
    ensures Paired(st) ==> Paired(Attempted(st, a, deployed, chains))
  {
    if a.Stores? {
      forall s, d ensures s in ALL_SERIES && d in BOTH_SIDES {
        SeriesAndSides(s, d);
      }
      forall s ensures SeriesCurrent(Attempted(st, a, deployed, chains), s, deployed, chains) {
        assert SeriesCurrent(st, s, deployed, chains);
        NewTotalsCover(st, s, deployed, HeadOf(a, SideOf(s)), chains);
      }
    }
  }

  /**
   Incremental statistics equal a full rescan: after any number of rounds, including rounds that
   throw before storing, each series holds the totals of all events from deployment to its mark.
   */
  lemma {:induction false} IncrementalEqualsRescan(st: Store, rounds: seq<Attempt>, deployed: Side -> int,
                                                   chains: Chains)
    requires Current(st, deployed, chains) && HeadsAdvance(st, rounds, deployed, chains)
    ensures Current(AfterRounds(st, rounds, deployed, chains), deployed, chains)
    ensures Paired(st) ==> Paired(AfterRounds(st, rounds, deployed, chains))
  {
    if rounds != [] {
      var before := rounds[..|rounds|-1];
      assert forall k :: 0 <= k < |before| ==> before[..k] == rounds[..k];
      IncrementalEqualsRescan(st, before, deployed, chains);
      AttemptCurrent(AfterRounds(st, before, deployed, chains), rounds[|rounds|-1], deployed, chains);
    }
  }
}
