/** Congestion prices over the reals, and the priority a transaction gets from them. */
module Pricing {
  import opened Locks
  import opened Protocol
  import opened Ingest
  import opened QueueDepths

  const MIN_PRICE: real := 0.001
  const MAX_PRICE: real := 10.0

  // ---- Products ----

  lemma ProductGrows(x: real, y: real, z: real)
    requires x <= y && z >= 0.0
    ensures x * z <= y * z
  {
  }

  // ---- Moving averages ----

  function Ewma(alpha: real, observation: real, value: real): real {
    observation * alpha + value * (1.0 - alpha)
  }

  predicate Between(x: real, lo: real, hi: real) {
    lo <= x <= hi
  }

  /** An average stays between bounds that its value and its observation obey. */
  lemma EwmaIsConvex(alpha: real, observation: real, value: real, lo: real, hi: real)
    requires Between(alpha, 0.0, 1.0) && Between(observation, lo, hi) && Between(value, lo, hi)
    ensures Between(Ewma(alpha, observation, value), lo, hi)
  {
    AtLeast(alpha, observation, value, lo);
    AtLeast(alpha, -observation, -value, -hi);
    assert Ewma(alpha, -observation, -value) == -Ewma(alpha, observation, value);
  }

  /** An average moves towards the observation by its weight. */
  lemma AveragesMove(alpha: real, observation: real, value: real)
    ensures Ewma(alpha, observation, value) == value + alpha * (observation - value)
  {
    assert value * (1.0 - alpha) == value - value * alpha;
    assert alpha * (observation - value) == observation * alpha - value * alpha;
  }

  lemma Shares(alpha: real, rest: real, x: real)
    requires alpha + rest == 1.0
    ensures x * alpha + x * rest == x
  {
    assert x * alpha + x * rest == x * (alpha + rest);
  }

  lemma AddUp(p: real, q: real, p': real, q': real)
    requires p <= p' && q <= q'
    ensures p + q <= p' + q'
  {
  }

  lemma AtLeast(alpha: real, observation: real, value: real, lo: real)
    requires Between(alpha, 0.0, 1.0) && lo <= observation && lo <= value
    ensures lo <= Ewma(alpha, observation, value)
  {
    var rest := 1.0 - alpha;
    ProductGrows(lo, observation, alpha);
    ProductGrows(lo, value, rest);
    Shares(alpha, rest, lo);
    AddUp(lo * alpha, lo * rest, observation * alpha, value * rest);
  }

  /** A price as observed: demand over capacity, clamped; the maximum without capacity. */
  function Utilization(demand: real, capacity: real): (price: real)
    ensures Between(price, MIN_PRICE, MAX_PRICE)
  {
    if capacity > 0.0 then Clamp(demand / capacity, MIN_PRICE, MAX_PRICE) else MAX_PRICE
  }

  /** Demand over capacity, at least a thousandth and at most 10; 10 without capacity. */
  lemma UtilizationIs(demand: real, capacity: real)
    ensures var u := Utilization(demand, capacity);
      && (capacity <= 0.0 ==> u == 10.0)
      && (capacity > 0.0 && 0.001 * capacity <= demand <= 10.0 * capacity ==> u * capacity == demand)
      && (capacity > 0.0 && demand <= 0.001 * capacity ==> u == 0.001)
      && (capacity > 0.0 && demand >= 10.0 * capacity ==> u == 10.0)
  {
    if capacity > 0.0 {
      var ratio := demand / capacity;
      assert ratio * capacity == demand;
      if demand >= 10.0 * capacity {
        assert 10.0 <= ratio;
      }
      QuotientOrder(ratio, 0.001, capacity);
      QuotientOrder(ratio, 10.0, capacity);
      QuotientOrder(0.001, ratio, capacity);
      QuotientOrder(10.0, ratio, capacity);
    }
  }

  lemma QuotientOrder(x: real, y: real, z: real)
    requires z > 0.0
    ensures x <= y <==> x * z <= y * z
  {
    if x <= y {
      ProductGrows(x, y, z);
    } else {
      ProductIsPositive(x - y, z);
      assert (x - y) * z == x * z - y * z;
    }
  }

  // ---- The cost of a transaction ----

  datatype Prices = Prices(cu: real, lock: real, time: real, space: real)

  datatype BasePrices = BasePrices(cu: real, writeLock: real, readLock: real, time: real, space: real)

  predicate NonNegative(b: BasePrices) {
    b.cu >= 0.0 && b.writeLock >= 0.0 && b.readLock >= 0.0 && b.time >= 0.0 && b.space >= 0.0
  }

  predicate InRange(p: Prices) {
    Between(p.cu, 0.0, MAX_PRICE) && Between(p.lock, 0.0, MAX_PRICE) && Between(p.time, 0.0, MAX_PRICE) && Between(p.space, 0.0, MAX_PRICE)
  }

  function WriteLocks(locks: seq<Lock>): nat {
    if locks == [] then 0 else WriteLocks(locks[..|locks| - 1]) + if locks[|locks| - 1].writable then 1 else 0
  }

  function TotalCost(p: Prices, b: BasePrices, cu: nat, writeLocks: nat, readLocks: nat): real {
    MaxReal(cu as real, 1.0) * p.cu * b.cu
    + writeLocks as real * p.lock * b.writeLock
    + readLocks as real * p.lock * b.readLock
    + p.time * b.time
    + p.space * b.space
  }

  lemma ProductIsNonNegative(x: real, y: real, z: real)
    requires x >= 0.0 && y >= 0.0 && z >= 0.0
    ensures x * y * z >= 0.0
  {
    ProductGrows(0.0, x, y);
    ProductGrows(0.0, x * y, z);
  }

  /** More compute units never cost less, and nothing costs less than nothing. */
  lemma TotalCostIsMonotone(p: Prices, b: BasePrices, cu: nat, cu': nat, writeLocks: nat, readLocks: nat)
    requires InRange(p) && NonNegative(b) && cu <= cu'
    ensures 0.0 <= TotalCost(p, b, cu, writeLocks, readLocks) <= TotalCost(p, b, cu', writeLocks, readLocks)
  {
    var x, y := MaxReal(cu as real, 1.0), MaxReal(cu' as real, 1.0);
    ProductGrows(x, y, p.cu);
    ProductGrows(x * p.cu, y * p.cu, b.cu);
    ProductIsNonNegative(x, p.cu, b.cu);
    ProductIsNonNegative(writeLocks as real, p.lock, b.writeLock);
    ProductIsNonNegative(readLocks as real, p.lock, b.readLock);
    ProductGrows(0.0, p.time, b.time);
    ProductGrows(0.0, p.space, b.space);
  }

  /** The number of locks that write. */
  lemma {:induction false} WriteLocksIs(locks: seq<Lock>)
    ensures WriteLocks(locks) == |set i | 0 <= i < |locks| && locks[i].writable|
  {
    var writers := set i | 0 <= i < |locks| && locks[i].writable;
    if locks == [] {
      assert writers == {};
    } else {
      var n := |locks| - 1;
      WriteLocksIs(locks[..n]);
      var before := set i | 0 <= i < n && locks[..n][i].writable;
      assert before == set i | 0 <= i < |locks[..n]| && locks[..n][i].writable;
      assert writers == before + if locks[n].writable then {n} else {};
    }
  }

  /** What each resource adds: a unit (from the second on; the first is always paid), a
      written account, a read account; and what is paid for time and space in any case. */
  lemma TotalCostIs(p: Prices, b: BasePrices, cu: nat, writeLocks: nat, readLocks: nat)
    ensures TotalCost(p, b, 0, 0, 0) == p.cu * b.cu + p.time * b.time + p.space * b.space
    ensures TotalCost(p, b, 1, writeLocks, readLocks) == TotalCost(p, b, 0, writeLocks, readLocks)
    ensures cu >= 1 ==> TotalCost(p, b, cu + 1, writeLocks, readLocks) == TotalCost(p, b, cu, writeLocks, readLocks) + p.cu * b.cu
    ensures TotalCost(p, b, cu, writeLocks + 1, readLocks) == TotalCost(p, b, cu, writeLocks, readLocks) + p.lock * b.writeLock
    ensures TotalCost(p, b, cu, writeLocks, readLocks + 1) == TotalCost(p, b, cu, writeLocks, readLocks) + p.lock * b.readLock
  {
    OneMore(cu as real, p.cu, b.cu);
    OneMore(writeLocks as real, p.lock, b.writeLock);
    OneMore(readLocks as real, p.lock, b.readLock);
    OneMore(0.0, p.cu, b.cu);
  }

  lemma OneMore(n: real, x: real, y: real)
    ensures (n + 1.0) * x * y == n * x * y + x * y
  {
    assert (n + 1.0) * x == n * x + x;
    assert (n * x + x) * y == n * x * y + x * y;
  }

  // ---- Flexibility ----

  function Abs(x: real): real {
    if x < 0.0 then -x else x
  }

  /** Grows from 0 towards `k` with the entropy. */
  function Flexibility(theta: real, k: real, entropy: real): real
    requires theta >= 0.0
  {
    ProductGrows(0.0, theta, Abs(entropy));
    k * (1.0 - 1.0 / (1.0 + theta * Abs(entropy)))
  }

  /** The discount given for flexibility. */
  function Discount(theta: real, k: real, entropy: real): real
    requires theta >= 0.0
  {
    Flexibility(theta, k, entropy) * 0.3
  }

  /** The discount, without a quotient: three tenths of the coefficient, in the proportion of
      the scaled entropy to one more than it. */
  lemma DiscountIs(theta: real, k: real, entropy: real)
    requires theta >= 0.0
    ensures var scaled := theta * if entropy < 0.0 then -entropy else entropy;
      scaled >= 0.0 && Discount(theta, k, entropy) * (1.0 + scaled) == 0.3 * (k * scaled)
  {
    var scaled := theta * Abs(entropy);
    ProductGrows(0.0, theta, Abs(entropy));
    var x := 1.0 + scaled;
    var r := 1.0 / x;
    assert r * x == 1.0;
    assert (1.0 - r) * x == scaled;
    var d := Discount(theta, k, entropy);
    assert d == k * (1.0 - r) * 0.3;
    assert k * ((1.0 - r) * x) == (k * (1.0 - r)) * x;
    assert d * x == (k * (1.0 - r)) * 0.3 * x == 0.3 * ((k * (1.0 - r)) * x);
  }

  /** The discount never reaches 0.3 times the coefficient: with a coefficient up to ten
      thirds (the default is 2), a transaction always pays part of its cost. */
  lemma DiscountBelowOne(theta: real, k: real, entropy: real)
    requires theta >= 0.0 && 0.0 < k
    ensures 0.0 <= Discount(theta, k, entropy) < 0.3 * k
    ensures k <= 10.0 / 3.0 ==> Discount(theta, k, entropy) < 1.0
  {
    var x := 1.0 + theta * Abs(entropy);
    ProductGrows(0.0, theta, Abs(entropy));
    var r := 1.0 / x;
    assert r * x == 1.0;
    assert r > 0.0 && r <= 1.0;
    var share := 1.0 - r;
    ProductGrows(0.0, share, k);
    ProductGrows(k, k, share);
    assert k * share == k - k * r;
    ProductIsPositive(k, r);
  }

  lemma ProductIsPositive(x: real, y: real)
    requires x > 0.0 && y > 0.0
    ensures x * y > 0.0
  {
  }

  /** The entropy after one more observation; `lnActivity` is the logarithm of the activity
      ratio, which is at least 1. */
  function NextEntropy(entropy: real, lnActivity: real, p90Price: real): real {
    var current := lnActivity * (1.0 + p90Price);
    0.9 * entropy + 0.1 * (if current < 10.0 then current else 10.0)
  }

  /** Nine parts of what was, one part of what is seen, which counts up to 10. */
  lemma NextEntropyIs(entropy: real, lnActivity: real, p90Price: real)
    ensures var seen := lnActivity + lnActivity * p90Price;
      && (seen <= 10.0 ==> 10.0 * NextEntropy(entropy, lnActivity, p90Price) == 9.0 * entropy + seen)
      && (seen >= 10.0 ==> 10.0 * NextEntropy(entropy, lnActivity, p90Price) == 9.0 * entropy + 10.0)
  {
    assert lnActivity * (1.0 + p90Price) == lnActivity + lnActivity * p90Price;
  }

  lemma EntropyStaysInRange(entropy: real, lnActivity: real, p90Price: real)
    requires Between(entropy, 0.0, 10.0) && lnActivity >= 0.0 && p90Price >= 0.0
    ensures Between(NextEntropy(entropy, lnActivity, p90Price), 0.0, 10.0)
  {
    ProductGrows(0.0, lnActivity, 1.0 + p90Price);
  }

  // ---- The score ----

  /** What a score depends on besides the transaction. */
  datatype Market = Market(prices: Prices, base: BasePrices, depths: Depths, theta: real, k: real, entropy: real)

  predicate Sane(m: Market) {
    && InRange(m.prices) && NonNegative(m.base)
    && m.theta >= 0.0 && 0.0 < m.k <= 10.0 / 3.0
  }

  /** Compute units, inflated for congested accounts. */
  function EffectiveCu(cost: nat, penalty: real): nat
    requires penalty >= 0.0
  {
    ProductGrows(0.0, cost as real, 1.0 + penalty);
    MaxReal(cost as real * (1.0 + penalty), 1.0).Floor
  }

  /** The units and the penalty's share of them, rounded down, and at least one. */
  lemma EffectiveCuIs(cost: nat, penalty: real)
    requires penalty >= 0.0
    ensures var e := EffectiveCu(cost, penalty); var inflated := cost as real + cost as real * penalty;
      && e >= 1 && (inflated >= 1.0 ==> e as real <= inflated < e as real + 1.0) && (inflated < 1.0 ==> e == 1)
  {
    assert cost as real * (1.0 + penalty) == cost as real + cost as real * penalty;
  }

  function Surplus(m: Market, cost: nat, locks: seq<Lock>, fee: nat, tip: nat): real
    requires m.theta >= 0.0
  {
    PenaltyIsMonotone(m.depths, m.depths, locks);
    WriteLocksBound(locks);
    var effective := EffectiveCu(cost, SerializationPenalty(m.depths, locks));
    var resources := TotalCost(m.prices, m.base, effective, WriteLocks(locks), |locks| - WriteLocks(locks));
    (fee + tip) as real - resources * (1.0 - Discount(m.theta, m.k, m.entropy))
  }

  lemma {:induction false} WriteLocksBound(locks: seq<Lock>)
    ensures WriteLocks(locks) <= |locks|
  {
    if locks != [] {
      WriteLocksBound(locks[..|locks| - 1]);
    }
  }

  /** Scaled and clamped below the marker of bundles; a transaction that loses money goes
      to the bottom instead of being refused. */
  function ToPriority(surplus: real): (priority: nat)
    ensures priority < BUNDLE_MARKER
  {
    var scaled := MaxReal(surplus * PRIORITY_MULTIPLIER as real + 1000.0, 0.0);
    if scaled >= (BUNDLE_MARKER - 1) as real then BUNDLE_MARKER - 1 else scaled.Floor
  }

  /** A million times the surplus and a thousand, rounded down; nothing below nothing, and
      never the marker of bundles. */
  ghost predicate IsScaled(p: nat, surplus: real) {
    var scaled := surplus * 1_000_000.0 + 1_000.0;
    && (scaled <= 0.0 ==> p == 0)
    && (0.0 <= scaled < 0xFFFF_FFFF_FFFF_FFFE as real ==> p as real <= scaled < p as real + 1.0)
    && (scaled >= 0xFFFF_FFFF_FFFF_FFFE as real ==> p == 0xFFFF_FFFF_FFFF_FFFE)
  }

  lemma ToPriorityIs(surplus: real)
    ensures IsScaled(ToPriority(surplus), surplus)
  {
  }

  function Score(m: Market, cost: nat, locks: seq<Lock>, fee: nat, tip: nat): nat
    requires m.theta >= 0.0
  {
    ToPriority(Surplus(m, cost, locks, fee, tip))
  }

  /** What a transaction is charged: the cost of its inflated units and of its locks. */
  function Charge(m: Market, cost: nat, locks: seq<Lock>): real {
    PenaltyIsMonotone(m.depths, m.depths, locks);
    WriteLocksBound(locks);
    TotalCost(m.prices, m.base, EffectiveCu(cost, SerializationPenalty(m.depths, locks)), WriteLocks(locks), |locks| - WriteLocks(locks))
  }

  lemma SurplusIs(m: Market, cost: nat, locks: seq<Lock>, fee: nat, tip: nat)
    requires m.theta >= 0.0
    ensures var paid := Charge(m, cost, locks);
      Surplus(m, cost, locks, fee, tip) == (fee + tip) as real - paid + paid * Discount(m.theta, m.k, m.entropy)
  {
    hide TotalCost, Discount, EffectiveCu, SerializationPenalty;
    var paid, discount := Charge(m, cost, locks), Discount(m.theta, m.k, m.entropy);
    assert Surplus(m, cost, locks, fee, tip) == (fee + tip) as real - paid * (1.0 - discount);
    assert paid * (1.0 - discount) == paid - paid * discount;
  }

  /** The score of a transaction is its fee and tip, less what it is charged, of which the
      discount is taken off. */
  lemma ScoreIs(m: Market, cost: nat, locks: seq<Lock>, fee: nat, tip: nat)
    requires m.theta >= 0.0
    ensures var paid := Charge(m, cost, locks);
      IsScaled(Score(m, cost, locks, fee, tip), (fee + tip) as real - paid + paid * Discount(m.theta, m.k, m.entropy))
  {
    hide ToPriority, Surplus, Charge, Discount, IsScaled;
    SurplusIs(m, cost, locks, fee, tip);
    ToPriorityIs(Surplus(m, cost, locks, fee, tip));
  }

  /** What is charged, in terms of the penalty, the units and the locks. */
  lemma ChargeIs(m: Market, cost: nat, locks: seq<Lock>)
    ensures WriteLocks(locks) <= |locks| && 0.0 <= SerializationPenalty(m.depths, locks)
    ensures Charge(m, cost, locks) ==
      TotalCost(m.prices, m.base, EffectiveCu(cost, SerializationPenalty(m.depths, locks)), WriteLocks(locks), |locks| - WriteLocks(locks))
  {
    WriteLocksBound(locks);
    PenaltyIsMonotone(m.depths, m.depths, locks);
    hide TotalCost, EffectiveCu, SerializationPenalty;
  }

  lemma FloorIsMonotone(x: real, y: real)
    requires x <= y
    ensures x.Floor <= y.Floor
  {
  }

  lemma ToPriorityIsMonotone(s: real, s': real)
    requires s <= s'
    ensures ToPriority(s) <= ToPriority(s')
  {
    var m := PRIORITY_MULTIPLIER as real;
    assert s * m <= s' * m;
    FloorIsMonotone(MaxReal(s * m + 1000.0, 0.0), MaxReal(s' * m + 1000.0, 0.0));
  }

  lemma EffectiveCuIsMonotone(cost: nat, penalty: real, penalty': real)
    requires 0.0 <= penalty <= penalty'
    ensures EffectiveCu(cost, penalty) <= EffectiveCu(cost, penalty')
  {
    ProductGrows(1.0 + penalty, 1.0 + penalty', cost as real);
    FloorIsMonotone(MaxReal(cost as real * (1.0 + penalty), 1.0), MaxReal(cost as real * (1.0 + penalty'), 1.0));
  }

  /** Paying more, as fee or as tip, never lowers the priority. */
  lemma PayingMoreHelps(m: Market, cost: nat, locks: seq<Lock>, fee: nat, tip: nat, fee': nat, tip': nat)
    requires m.theta >= 0.0 && fee + tip <= fee' + tip'
    ensures Score(m, cost, locks, fee, tip) <= Score(m, cost, locks, fee', tip')
  {
    ToPriorityIsMonotone(Surplus(m, cost, locks, fee, tip), Surplus(m, cost, locks, fee', tip'));
  }

  /** Deeper queues, on whatever accounts, never raise the priority. */
  lemma CongestionHurts(m: Market, depths': Depths, cost: nat, locks: seq<Lock>, fee: nat, tip: nat)
    requires Sane(m) && Deeper(m.depths, depths')
    ensures Score(m.(depths := depths'), cost, locks, fee, tip) <= Score(m, cost, locks, fee, tip)
  {
    hide ToPriority, TotalCost, SerializationPenalty, Discount, EffectiveCu, WriteLocks, Deeper;
    var m' := m.(depths := depths');
    PenaltyIsMonotone(m.depths, depths', locks);
    WriteLocksBound(locks);
    EffectiveCuIsMonotone(cost, SerializationPenalty(m.depths, locks), SerializationPenalty(depths', locks));
    var e := EffectiveCu(cost, SerializationPenalty(m.depths, locks));
    var e' := EffectiveCu(cost, SerializationPenalty(depths', locks));
    var writers, readers := WriteLocks(locks), |locks| - WriteLocks(locks);
    TotalCostIsMonotone(m.prices, m.base, e, e', writers, readers);
    DiscountBelowOne(m.theta, m.k, m.entropy);
    var share := 1.0 - Discount(m.theta, m.k, m.entropy);
    ProductGrows(TotalCost(m.prices, m.base, e, writers, readers), TotalCost(m.prices, m.base, e', writers, readers), share);
    assert Surplus(m, cost, locks, fee, tip) == (fee + tip) as real - TotalCost(m.prices, m.base, e, writers, readers) * share;
    assert Surplus(m', cost, locks, fee, tip) == (fee + tip) as real - TotalCost(m.prices, m.base, e', writers, readers) * share;
    ToPriorityIsMonotone(Surplus(m', cost, locks, fee, tip), Surplus(m, cost, locks, fee, tip));
  }

  /** One more transaction in the queue never raises anybody's priority. */
  lemma QueueingHurts(m: Market, queued: seq<Lock>, cost: nat, locks: seq<Lock>, fee: nat, tip: nat)
    requires Sane(m)
    ensures Score(m.(depths := Queued(m.depths, queued)), cost, locks, fee, tip) <= Score(m, cost, locks, fee, tip)
  {
    QueueingDeepens(m.depths, queued);
    CongestionHurts(m, Queued(m.depths, queued), cost, locks, fee, tip);
  }

  // ---- The price tracker ----

  /** What a tick observes. */
  datatype Tick = Tick(cuDemand: real, cuCapacity: real, lockDemand: real, lockCapacity: real,
                       elapsedMs: real, remainingMs: real, fragmentation: real)

  datatype Alphas = Alphas(cu: real, lock: real, time: real, space: real)

  predicate Weights(a: Alphas) {
    Between(a.cu, 0.0, 1.0) && Between(a.lock, 0.0, 1.0) && Between(a.time, 0.0, 1.0) && Between(a.space, 0.0, 1.0)
  }

  function AfterTick(a: Alphas, p: Prices, t: Tick): Prices {
    Prices(
      Ewma(a.cu, Utilization(t.cuDemand, t.cuCapacity), p.cu),
      Ewma(a.lock, Utilization(t.lockDemand, t.lockCapacity), p.lock),
      Ewma(a.time, Utilization(t.elapsedMs, t.remainingMs), p.time),
      Ewma(a.space, Clamp(t.fragmentation, MIN_PRICE, MAX_PRICE), p.space))
  }

  function AfterReset(p: Prices): Prices {
    p.(time := MIN_PRICE, space := MIN_PRICE)
  }

  datatype PriceEvent = Ticked(tick: Tick) | SlotBoundary

  const NO_PRICES := Prices(0.0, 0.0, 0.0, 0.0)

  function AfterEvents(a: Alphas, es: seq<PriceEvent>): Prices {
    if es == [] then NO_PRICES
    else
      var before := AfterEvents(a, es[..|es| - 1]);
      match es[|es| - 1]
      case Ticked(t) => AfterTick(a, before, t)
      case SlotBoundary => AfterReset(before)
  }

  lemma TickStaysInRange(a: Alphas, p: Prices, t: Tick)
    requires Weights(a) && InRange(p)
    ensures InRange(AfterTick(a, p, t))
  {
    EwmaIsConvex(a.cu, Utilization(t.cuDemand, t.cuCapacity), p.cu, 0.0, MAX_PRICE);
    EwmaIsConvex(a.lock, Utilization(t.lockDemand, t.lockCapacity), p.lock, 0.0, MAX_PRICE);
    EwmaIsConvex(a.time, Utilization(t.elapsedMs, t.remainingMs), p.time, 0.0, MAX_PRICE);
    EwmaIsConvex(a.space, Clamp(t.fragmentation, MIN_PRICE, MAX_PRICE), p.space, 0.0, MAX_PRICE);
  }

  /** Over every history of ticks and slot boundaries, every price stays within bounds. */
  lemma {:induction false} PricesStayInRange(a: Alphas, es: seq<PriceEvent>)
    requires Weights(a)
    ensures InRange(AfterEvents(a, es))
  {
    if es != [] {
      PricesStayInRange(a, es[..|es| - 1]);
      if es[|es| - 1].Ticked? {
        TickStaysInRange(a, AfterEvents(a, es[..|es| - 1]), es[|es| - 1].tick);
      }
    }
  }

  // ---- Scores over every history of prices ----

  /** What a score depends on after a history of ticks and slot boundaries. */
  function MarketAfter(a: Alphas, es: seq<PriceEvent>, base: BasePrices, depths: Depths, theta: real, k: real, entropy: real): Market {
    Market(AfterEvents(a, es), base, depths, theta, k, entropy)
  }

  /** Whatever the prices have been through: deeper queues never raise a priority, one more
      queued transaction does not either, and paying more never lowers it. */
  lemma ScoresAreMonotone(a: Alphas, es: seq<PriceEvent>, base: BasePrices, depths: Depths, depths': Depths,
                          theta: real, k: real, entropy: real, queued: seq<Lock>,
                          cost: nat, locks: seq<Lock>, fee: nat, tip: nat, fee': nat, tip': nat)
    requires Weights(a) && NonNegative(base) && theta >= 0.0 && 0.0 < k <= 10.0 / 3.0
    requires Deeper(depths, depths') && fee + tip <= fee' + tip'
    ensures var before := Score(MarketAfter(a, es, base, depths, theta, k, entropy), cost, locks, fee, tip);
      && Score(MarketAfter(a, es, base, depths', theta, k, entropy), cost, locks, fee, tip) <= before
      && Score(MarketAfter(a, es, base, Queued(depths, queued), theta, k, entropy), cost, locks, fee, tip) <= before
      && before <= Score(MarketAfter(a, es, base, depths, theta, k, entropy), cost, locks, fee', tip')
  {
    var m := MarketAfter(a, es, base, depths, theta, k, entropy);
    PricesStayInRange(a, es);
    hide Score, InRange, AfterEvents;
    CongestionHurts(m, depths', cost, locks, fee, tip);
    QueueingHurts(m, queued, cost, locks, fee, tip);
    PayingMoreHelps(m, cost, locks, fee, tip, fee', tip');
  }

  class ResourcePrices {
    const alphas: Alphas
    var cu: real
    var lock: real
    var time: real
    var space: real
    ghost var history: seq<PriceEvent>

    ghost function Current(): Prices
      reads this
    {
      Prices(cu, lock, time, space)
    }

    /** The prices are those of the history. */
    ghost predicate Valid()
      reads this
    {
      Weights(alphas) && Current() == AfterEvents(alphas, history)
    }

    constructor (alphas: Alphas)
      requires Weights(alphas)
      ensures Valid() && history == [] && this.alphas == alphas
    {
      this.alphas := alphas;
      cu, lock, time, space, history := 0.0, 0.0, 0.0, 0.0, [];
    }

    method Update(t: Tick)
      requires Valid()
      modifies this
      ensures Valid() && history == old(history) + [Ticked(t)] && InRange(Current())
      ensures cu == old(cu) + alphas.cu * (Utilization(t.cuDemand, t.cuCapacity) - old(cu))
      ensures lock == old(lock) + alphas.lock * (Utilization(t.lockDemand, t.lockCapacity) - old(lock))
      ensures time == old(time) + alphas.time * (Utilization(t.elapsedMs, t.remainingMs) - old(time))
      ensures space == old(space) + alphas.space * (Utilization(t.fragmentation, 1.0) - old(space))
    {
      hide Ewma, Clamp, InRange;
      AveragesMove(alphas.cu, Utilization(t.cuDemand, t.cuCapacity), cu);
      AveragesMove(alphas.lock, Utilization(t.lockDemand, t.lockCapacity), lock);
      AveragesMove(alphas.time, Utilization(t.elapsedMs, t.remainingMs), time);
      AveragesMove(alphas.space, Utilization(t.fragmentation, 1.0), space);
      var cuUtilization := MAX_PRICE;
      if t.cuCapacity > 0.0 {
        cuUtilization := Clamp(t.cuDemand / t.cuCapacity, MIN_PRICE, MAX_PRICE);
      }
      cu := Ewma(alphas.cu, cuUtilization, cu);
      var lockUtilization := MAX_PRICE;
      if t.lockCapacity > 0.0 {
        lockUtilization := Clamp(t.lockDemand / t.lockCapacity, MIN_PRICE, MAX_PRICE);
      }
      lock := Ewma(alphas.lock, lockUtilization, lock);
      var timePrice := MAX_PRICE;
      if t.remainingMs > 0.0 {
        timePrice := Clamp(t.elapsedMs / t.remainingMs, MIN_PRICE, MAX_PRICE);
      }
      time := Ewma(alphas.time, timePrice, time);
      space := Ewma(alphas.space, Clamp(t.fragmentation, MIN_PRICE, MAX_PRICE), space);
      history := history + [Ticked(t)];
      assert history[..|history| - 1] == old(history);
      PricesStayInRange(alphas, history);
    }

    method Reset()
      requires Valid()
      modifies this
      ensures Valid() && history == old(history) + [SlotBoundary] && InRange(Current())
      ensures time == 0.001 && space == 0.001 && cu == old(cu) && lock == old(lock)
    {
      time, space := MIN_PRICE, MIN_PRICE;
      history := history + [SlotBoundary];
      assert history[..|history| - 1] == old(history);
      PricesStayInRange(alphas, history);
    }
  }
}
