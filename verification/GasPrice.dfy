/**
 Gas prices: tiers fetched from an oracle and the bridge contract, and a price that grows with the
 task's age. In wei.
 */
module GasPrice {
  import opened Wrappers
  import opened Arithmetic

  const GWEI: nat := 1_000_000_000
  const MIN_PRICE: nat := 1 * GWEI
  const DEFAULT_BUMP: nat := 10 * GWEI

  datatype Prices = Prices(slow: nat, average: nat, fast: nat, fixed: Option<nat>)

  datatype SpeedType = Slow | Average | Fast | Other

  function WithinLimits(price: nat, limit: nat): nat {
    if price < MIN_PRICE then MIN_PRICE else if price > limit then limit else price
  }

  /** Clamping keeps prices in order exactly when the limit is not below the floor. */
  lemma ClampOrderExactly(limit: nat)
    ensures (forall a: nat, b: nat :: a <= b ==> WithinLimits(a, limit) <= WithinLimits(b, limit)) <==>
            MIN_PRICE <= limit
  {
    if limit < MIN_PRICE {
      assert WithinLimits(0, limit) > WithinLimits(MIN_PRICE, limit);
    }
  }

  /** A price within the limits is kept, one below a gwei becomes a gwei, one above the limit the limit. */
  lemma ClampExactly(price: nat, limit: nat)
    ensures 1_000_000_000 <= price <= limit ==> WithinLimits(price, limit) == price
    ensures price < 1_000_000_000 ==> WithinLimits(price, limit) == 1_000_000_000
    ensures price >= 1_000_000_000 && price > limit ==> WithinLimits(price, limit) == limit
  {
  }

  // ---- fetching ----

  /** The oracle's answer; a tier may be absent or negative. */
  datatype OracleJson = OracleJson(slow: Option<int>, average: Option<int>, fast: Option<int>, fixed: nat)

  predicate Usable(tier: Option<int>) {
    tier.Some? && tier.value >= 0
  }

  function Tier(json: OracleJson, i: nat): Option<int> {
    if i == 0 then json.slow else if i == 1 then json.average else json.fast
  }

  predicate AllUsable(json: OracleJson) {
    Usable(json.slow) && Usable(json.average) && Usable(json.fast)
  }

  function Clamped(tier: Option<int>, limit: nat): nat
    requires Usable(tier)
  {
    WithinLimits(tier.value, limit)
  }

  /** What an oracle answer is worth: refused when a tier is absent or negative, else clamped tier by tier. */
  function OraclePrices(response: Outcome<OracleJson>, limit: nat): Outcome<Prices> {
    if response.Threw? || !AllUsable(response.value) then Threw
    else
      var json := response.value;
      Returned(Prices(Clamped(json.slow, limit), Clamped(json.average, limit), Clamped(json.fast, limit),
                      if json.fixed > 0 then Some(json.fixed) else None))
  }

  method FetchGasPriceFromOracle(response: Outcome<OracleJson>, limit: nat) returns (prices: Outcome<Prices>)
    ensures prices == OraclePrices(response, limit)
    ensures prices.Threw? <==>
              response.Threw? || exists tier :: tier in [response.value.slow, response.value.average, response.value.fast]
                                                && (tier == None || tier.value < 0)
    ensures prices.Returned? ==>
              && prices.value.slow == WithinLimits(response.value.slow.value, limit)
              && prices.value.average == WithinLimits(response.value.average.value, limit)
              && prices.value.fast == WithinLimits(response.value.fast.value, limit)
              && prices.value.fixed == if response.value.fixed > 0 then Some(response.value.fixed) else None
  {
    if response.Threw? {
      return Threw;
    }
    var json := response.value;
    var tiers: seq<nat> := [0, 0, 0];
    for i := 0 to 3
      invariant |tiers| == 3
      invariant forall k :: 0 <= k < i ==> Usable(Tier(json, k)) && tiers[k] == Clamped(Tier(json, k), limit)
    {
      var price := Tier(json, i);
      if price.None? || price.value < 0 {
        return Threw;
      }
      tiers := tiers[i := WithinLimits(price.value, limit)];
    }
    assert Tier(json, 0) == json.slow && Tier(json, 1) == json.average && Tier(json, 2) == json.fast;
    prices := Returned(Prices(tiers[0], tiers[1], tiers[2], if json.fixed > 0 then Some(json.fixed) else None));
  }

  /** The prices to use: per tier the larger of oracle and contract, either alone, or nothing. */
  function FetchGasPrice(oracle: Outcome<Prices>, contract: Outcome<nat>): (r: Option<Prices>)
    ensures r.None? <==> oracle.Threw? && contract.Threw?
    ensures r.Some? && contract.Returned? ==>
              contract.value <= r.value.slow && contract.value <= r.value.average && contract.value <= r.value.fast
    ensures r.Some? && oracle.Returned? ==>
              && oracle.value.slow <= r.value.slow && oracle.value.average <= r.value.average
              && oracle.value.fast <= r.value.fast && oracle.value.fixed == r.value.fixed
    ensures forall cap :: r.Some? && (oracle.Returned? ==> Below(oracle.value, cap)) && AtMost(contract, cap) ==>
              Below(r.value, cap)
    ensures r.Some? && oracle.Threw? ==> r == Some(Prices(contract.value, contract.value, contract.value, None))
    ensures r.Some? && oracle.Returned? ==>
              && (r.value.slow == oracle.value.slow || contract == Returned(r.value.slow))
              && (r.value.average == oracle.value.average || contract == Returned(r.value.average))
              && (r.value.fast == oracle.value.fast || contract == Returned(r.value.fast))
  {
    match (oracle, contract)
    case (Threw, Threw) => None
    case (Threw, Returned(p)) => Some(Prices(p, p, p, None))
    case (Returned(o), Threw) => Some(o)
    case (Returned(o), Returned(p)) => Some(Prices(Max(o.slow, p), Max(o.average, p), Max(o.fast, p), o.fixed))
  }

  predicate Ordered(p: Prices) {
    p.slow <= p.average <= p.fast
  }

  predicate OrderedJson(json: OracleJson) {
    AllUsable(json) ==> json.slow.value <= json.average.value <= json.fast.value
  }

  predicate OrderedAnswer(response: Outcome<OracleJson>) {
    response.Returned? ==> OrderedJson(response.value)
  }

  predicate AtMost(contract: Outcome<nat>, cap: nat) {
    contract.Returned? ==> contract.value <= cap
  }

  predicate Below(p: Prices, cap: nat) {
    p.slow <= cap && p.average <= cap && p.fast <= cap
  }

  // ---- the price of a task ----

  function SpeedBase(s: SpeedType): nat {
    match s
    case Slow => 0
    case Average => 1
    case Fast => 2
    case Other => 0
  }

  /** The step of escalation: the gap between the two upper tiers, or ten gwei. */
  function Diff(p: Prices): nat {
    if p.fast > p.average then p.fast - p.average else DEFAULT_BUMP
  }

  /**
   The two lower tiers are strings, which the minimum returns as they are: only from speed 2 on is
   the price capped.
   */
  function PriceAt(p: Prices, speed: int, cap: nat): nat {
    if speed < 0 then 0
    else if speed == 0 then p.slow
    else if speed == 1 then p.average
    else Min(cap, p.fast + Diff(p) * (speed - 2))
  }

  class Service {
    const limit: nat
    const speedType: SpeedType
    const bumpInterval: int
    var cachedGasPrice: Prices

    constructor (limit: nat, speedType: SpeedType, bumpInterval: int, fallback: nat)
      ensures this.limit == limit && this.speedType == speedType && this.bumpInterval == bumpInterval
      ensures cachedGasPrice == Prices(fallback, fallback, fallback, None)
    {
      this.limit, this.speedType, this.bumpInterval := limit, speedType, bumpInterval;
      cachedGasPrice := Prices(fallback, fallback, fallback, None);
    }

    /** The periodic update. A failed one keeps the cached prices, and ordered sources keep them ordered. */
    method Update(response: Outcome<OracleJson>, contract: Outcome<nat>)
      modifies this
      ensures var fetched := FetchGasPrice(OraclePrices(response, limit), contract);
              cachedGasPrice == if fetched.Some? then fetched.value else old(cachedGasPrice)
      ensures MIN_PRICE <= limit && OrderedAnswer(response) && old(Ordered(cachedGasPrice)) ==> Ordered(cachedGasPrice)
      ensures MIN_PRICE <= limit && AtMost(contract, limit) && old(Below(cachedGasPrice, limit)) ==>
                Below(cachedGasPrice, limit)
    {
      var oracle := FetchGasPriceFromOracle(response, limit);
      var fetched := FetchGasPrice(oracle, contract);
      cachedGasPrice := if fetched.Some? then fetched.value else cachedGasPrice;
    }

    method GetPrice(timestamp: int, now: int) returns (price: nat)
      requires bumpInterval > 0
      ensures price == if cachedGasPrice.fixed.Some? then cachedGasPrice.fixed.value
                       else PriceAt(cachedGasPrice, Speed(SpeedBase(speedType), now - timestamp, bumpInterval), limit)
    {
      if cachedGasPrice.fixed.Some? {
        return cachedGasPrice.fixed.value;
      }
      price := 0;
      var dt := now - timestamp;
      var speed := SpeedBase(speedType) + dt / bumpInterval;
      if speed == 0 {
        price := cachedGasPrice.slow;
      } else if speed == 1 {
        price := cachedGasPrice.average;
      } else if speed >= 2 {
        var diff := cachedGasPrice.fast - cachedGasPrice.average;
        if diff <= 0 {
          diff := 10 * GWEI;
        }
        var bumped := cachedGasPrice.fast + diff * (speed - 2);
        price := Min(limit, bumped);
      }
    }
  }

  // ---- what escalation guarantees ----

  /**
   The price at every speed, without reference to the step: from speed 2 on it climbs by the gap between
   the two upper tiers, or by ten gwei when there is none, up to the cap.
   */
  lemma PriceExactly(p: Prices, speed: int, cap: nat)
    ensures speed < 0 ==> PriceAt(p, speed, cap) == 0
    ensures speed == 0 ==> PriceAt(p, speed, cap) == p.slow
    ensures speed == 1 ==> PriceAt(p, speed, cap) == p.average
    ensures speed >= 2 && p.fast > p.average ==>
              PriceAt(p, speed, cap) == Min(cap, p.average + (p.fast - p.average) * (speed - 1))
    ensures speed >= 2 && p.fast <= p.average ==>
              PriceAt(p, speed, cap) == Min(cap, p.fast + 10_000_000_000 * (speed - 2))
  {
    if speed >= 2 && p.fast > p.average {
      OneMore(p.fast - p.average, speed - 2);
    }
  }

  lemma OneMore(d: nat, k: nat)
    ensures d + d * k == d * (k + 1)
  {
  }

  lemma BumpsGrow(p: Prices, s: int, t: int)
    requires 2 <= s <= t
    ensures p.fast + Diff(p) * (s - 2) <= p.fast + Diff(p) * (t - 2)
  {
    assert Diff(p) * (t - 2) == Diff(p) * (s - 2) + Diff(p) * (t - s);
  }

  ghost predicate Escalates(p: Prices, cap: nat) {
    forall s, t :: s <= t ==> PriceAt(p, s, cap) <= PriceAt(p, t, cap)
  }

  /** The price never falls with age exactly when the tiers are in order and the average tier is within the cap. */
  lemma EscalatesExactly(p: Prices, cap: nat)
    ensures Escalates(p, cap) <==> p.slow <= p.average <= Min(cap, p.fast)
  {
    if Escalates(p, cap) {
      assert PriceAt(p, 0, cap) <= PriceAt(p, 1, cap) <= PriceAt(p, 2, cap);
      assert Diff(p) * 0 == 0;
    }
    if p.slow <= p.average <= Min(cap, p.fast) {
      forall s, t | s <= t ensures PriceAt(p, s, cap) <= PriceAt(p, t, cap) {
        if 2 <= s {
          BumpsGrow(p, s, t);
        } else if 2 <= t {
          BumpsGrow(p, 2, t);
        }
      }
    }
  }

  /** The price is within the cap at every age exactly when the two uncapped tiers are. */
  lemma WithinCapExactly(p: Prices, cap: nat)
    ensures (forall s :: PriceAt(p, s, cap) <= cap) <==> p.slow <= cap && p.average <= cap
  {
    if forall s :: PriceAt(p, s, cap) <= cap {
      assert PriceAt(p, 0, cap) <= cap && PriceAt(p, 1, cap) <= cap;
    }
  }

  /** A new task pays the tier its speed type names, the fast one up to the cap. */
  lemma NewTaskPaysItsTier(p: Prices, cap: nat, interval: int, age: int)
    requires 0 <= age < interval
    ensures PriceAt(p, Speed(SpeedBase(Slow), age, interval), cap) == p.slow
    ensures PriceAt(p, Speed(SpeedBase(Average), age, interval), cap) == p.average
    ensures PriceAt(p, Speed(SpeedBase(Fast), age, interval), cap) == Min(cap, p.fast)
    ensures PriceAt(p, Speed(SpeedBase(Other), age, interval), cap) == p.slow
  {
    assert age / interval == 0;
    assert Diff(p) * 0 == 0;
  }

  lemma TimesMonotone(d: nat, a: nat, b: nat)
    requires a <= b
    ensures d * a <= d * b
  {
  }

  lemma TimesLess(d: nat, c: nat)
    ensures d * (c - 1) == d * c - d
  {
  }

  lemma CeilReaches(n: nat, d: nat, k: nat)
    requires d > 0
    ensures k >= Ceil(n, d) <==> d * k >= n
  {
    var c := Ceil(n, d);
    var m := n + d - 1;
    assert m == d * c + m % d;
    if k >= c {
      TimesMonotone(d, c, k);
    } else {
      TimesMonotone(d, k, c - 1);
      TimesLess(d, c);
    }
  }

  /**
   From speed 2 on the price is the cap exactly from step 2 + ceil((cap - fast) / (fast - average)) on,
   or step 2 + ceil((cap - fast) / 10 gwei) when the two upper tiers do not differ.
   */
  lemma CapReachedExactly(p: Prices, cap: nat, speed: int)
    requires p.fast <= cap && 2 <= speed
    ensures PriceAt(p, speed, cap) == cap <==>
            speed >= 2 + Ceil(cap - p.fast, if p.fast > p.average then p.fast - p.average else 10_000_000_000)
  {
    CeilReaches(cap - p.fast, Diff(p), speed - 2);
  }

  /** The speed at an age, as a whole number of bump intervals on top of the base. */
  function Speed(base: nat, age: int, interval: int): int
    requires interval > 0
  {
    base + age / interval
  }

  /** The speed is the base plus the number of whole intervals in the age, rounded down for negative ages too. */
  lemma SpeedExactly(base: nat, age: int, interval: int, steps: int)
    requires interval > 0
    ensures Speed(base, age, interval) == base + steps <==> interval * steps <= age < interval * steps + interval
  {
    var q := age / interval;
    assert age == interval * q + age % interval;
    if steps < q {
      TimesAtMost(interval, steps + 1, q);
    } else if steps > q {
      TimesAtMost(interval, q + 1, steps);
    }
  }

  lemma TimesAtMost(d: int, a: int, b: int)
    requires d > 0 && a <= b
    ensures d * (a - 1) + d <= d * b
  {
    assert d * (b - a) >= 0;
    assert d * b == d * (a - 1) + d + d * (b - a);
  }

  lemma SpeedGrows(base: nat, age: int, age': int, interval: int)
    requires interval > 0 && age <= age'
    ensures Speed(base, age, interval) <= Speed(base, age', interval)
  {
    var more := age' / interval - age / interval;
    assert interval * more == (age' - age' % interval) - (age - age % interval);
    assert interval * more > -interval;
    if more <= -1 {
      NegativeMultiple(interval, more);
    }
  }

  lemma NegativeMultiple(d: int, k: int)
    requires d > 0 && k <= -1
    ensures d * k <= -d
  {
  }

  lemma FasterNeverPaysLess(p: Prices, cap: nat, s: int, t: int)
    requires s <= t && Ordered(p) && Below(p, cap)
    ensures PriceAt(p, s, cap) <= PriceAt(p, t, cap) <= cap
    ensures t >= 2 + Ceil(cap - p.fast, if p.fast > p.average then p.fast - p.average else 10_000_000_000) ==>
              PriceAt(p, t, cap) == cap
  {
    EscalatesExactly(p, cap);
    WithinCapExactly(p, cap);
    if t >= 2 {
      CapReachedExactly(p, cap, t);
    }
  }

  /**
   With ordered tiers within the cap, an older task never pays less, never more than the cap, and in
   the end the cap.
   */
  lemma OlderNeverPaysLess(p: Prices, cap: nat, base: nat, interval: int, age: int, age': int)
    requires interval > 0 && age <= age' && Ordered(p) && Below(p, cap)
    ensures var s, t := Speed(base, age, interval), Speed(base, age', interval);
            && PriceAt(p, s, cap) <= PriceAt(p, t, cap) <= cap
            && (t >= 2 + Ceil(cap - p.fast, if p.fast > p.average then p.fast - p.average else 10_000_000_000) ==>
                  PriceAt(p, t, cap) == cap)
  {
    SpeedGrows(base, age, age', interval);
    FasterNeverPaysLess(p, cap, Speed(base, age, interval), Speed(base, age', interval));
  }
}
