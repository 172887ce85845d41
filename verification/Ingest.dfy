/** What comes in: transactions from the validator, packets and bundles from the block
    engine, and what the scheduler makes of each. */
module Ingest {
  import opened Arithmetic
  import opened Orders
  import opened Locks
  import opened Protocol
  import opened Invariant
  import opened Capacity
  import opened Sequences

  function SatSub(a: nat, b: nat): (c: nat)
    ensures b <= a ==> c + b == a
    ensures a <= b ==> c == 0
  {
    if a < b then 0 else a - b
  }

  const PRIORITY_MULTIPLIER: nat := 1_000_000

  const U64_MAX: nat := 0xFFFF_FFFF_FFFF_FFFF

  function SatMul(a: nat, b: nat): (c: nat)
    ensures c <= U64_MAX && (a * b <= U64_MAX ==> c == a * b) && (a * b > U64_MAX ==> c == U64_MAX)
  {
    if a * b > U64_MAX then U64_MAX else a * b
  }

  function SatAdd(a: nat, b: nat): (c: nat)
    ensures c <= U64_MAX && (a + b <= U64_MAX ==> c == a + b) && (a + b > U64_MAX ==> c == U64_MAX)
  {
    if a + b > U64_MAX then U64_MAX else a + b
  }

  /** Reward per compute unit, kept below the marker of bundles. */
  function CalculatePriority(cost: nat, reward: nat): (priority: nat)
    ensures priority < BUNDLE_MARKER
  {
    var priority := SatMul(reward, PRIORITY_MULTIPLIER) / SatAdd(cost, 1);
    if priority < BUNDLE_MARKER then priority else BUNDLE_MARKER - 1
  }

  /** A million times the reward over the cost plus one, rounded down, each of them kept
      within 64 bits; the greatest priority below the marker if that is more. */
  ghost predicate IsPriority(p: nat, cost: nat, reward: nat) {
    var scaled := if reward * 1_000_000 <= 0xFFFF_FFFF_FFFF_FFFF then reward * 1_000_000 else 0xFFFF_FFFF_FFFF_FFFF;
    var divisor := if cost + 1 <= 0xFFFF_FFFF_FFFF_FFFF then cost + 1 else 0xFFFF_FFFF_FFFF_FFFF;
    && p <= 0xFFFF_FFFF_FFFF_FFFE
    && (IsQuotient(p, scaled, divisor) || (p == 0xFFFF_FFFF_FFFF_FFFE && (p + 1) * divisor <= scaled))
  }

  lemma PriorityIs(cost: nat, reward: nat)
    ensures IsPriority(CalculatePriority(cost, reward), cost, reward)
  {
    var scaled, divisor := SatMul(reward, PRIORITY_MULTIPLIER), SatAdd(cost, 1);
    QuotientIs(scaled, divisor);
    if CalculatePriority(cost, reward) != scaled / divisor {
      Arithmetic.ProductGrows(divisor, BUNDLE_MARKER, scaled / divisor);
    }
  }

  /** A better reward never lowers the priority, a higher cost never raises it. */
  lemma PriorityIsMonotone(cost: nat, reward: nat, cost': nat, reward': nat)
    requires reward <= reward' && cost' <= cost
    ensures CalculatePriority(cost, reward) <= CalculatePriority(cost', reward')
  {
    QuotientGrows(SatMul(reward, PRIORITY_MULTIPLIER), SatAdd(cost, 1), SatMul(reward', PRIORITY_MULTIPLIER), SatAdd(cost', 1));
  }

  /** A transaction handed to the scheduler: its cost and reward if they could be derived,
      and whether it names a filtered account. */
  datatype Arrival = Arrival(key: Key, locks: seq<Lock>, costReward: Option<(nat, nat)>, filtered: bool) {
    predicate Accepted() {
      costReward.Some? && !filtered
    }

    /** The transaction as the bridge holds it. */
    function Label(): Tx {
      match costReward
      case None => Tx(locks, 0, 0)
      case Some((cost, reward)) => Tx(locks, CalculatePriority(cost, reward), cost)
    }
  }

  /** The transaction is stored with its locks, its cost and its priority, and waits for its
      first check. */
  ghost predicate Stored(a: Arrival, txs: map<Key, Tx>, unchecked: set<PriorityId>) {
    && a.costReward.Some? && !a.filtered && a.key in txs && txs[a.key].locks == a.locks
    && var (cost, reward) := a.costReward.value; var p := txs[a.key].priority;
    && txs[a.key].cost == cost && PriorityId(p, cost, a.key) in unchecked && IsPriority(p, cost, reward)
  }

  lemma StillStored(a: Arrival, txs: map<Key, Tx>, unchecked: set<PriorityId>, txs': map<Key, Tx>, unchecked': set<PriorityId>)
    requires Stored(a, txs, unchecked) && unchecked <= unchecked'
    requires a.key in txs ==> a.key in txs' && txs'[a.key] == txs[a.key]
    ensures Stored(a, txs', unchecked')
  {
    hide IsPriority;
  }

  /** Each arrival that scores and is not filtered is stored; the bridge forgets the others. */
  ghost predicate TakenIn(arrivals: seq<Arrival>, txs: map<Key, Tx>, unchecked: set<PriorityId>) {
    forall i | 0 <= i < |arrivals| ::
      if arrivals[i].costReward.None? || arrivals[i].filtered then arrivals[i].key !in txs else Stored(arrivals[i], txs, unchecked)
  }

  ghost predicate ComeFrom(ms: set<PriorityId>, arrivals: seq<Arrival>) {
    forall m | m in ms :: exists a :: a in arrivals && a.key == m.key
  }

  ghost predicate AllBelow(lost: set<PriorityId>, kept: set<PriorityId>) {
    forall x, y | x in lost && y in kept :: Below(x, y)
  }

  lemma NothingTaken(txs: map<Key, Tx>, unchecked: set<PriorityId>)
    ensures TakenIn([], txs, unchecked) && ComeFrom({}, [])
  {
  }

  lemma OneMoreTaken(arrivals: seq<Arrival>, i: nat, txs: map<Key, Tx>, unchecked: set<PriorityId>,
                     txs': map<Key, Tx>, unchecked': set<PriorityId>)
    requires i < |arrivals| && unchecked <= unchecked' && forall j | 0 <= j < i :: arrivals[j].key != arrivals[i].key
    requires txs'.Keys <= txs.Keys + {arrivals[i].key} && forall k | k in txs :: k in txs' && txs'[k] == txs[k]
    requires TakenIn(arrivals[..i], txs, unchecked)
    requires if arrivals[i].costReward.None? || arrivals[i].filtered then arrivals[i].key !in txs'
             else Stored(arrivals[i], txs', unchecked')
    ensures TakenIn(arrivals[..i + 1], txs', unchecked')
  {
    hide Stored;
    forall j | 0 <= j < i && Stored(arrivals[j], txs, unchecked) ensures Stored(arrivals[j], txs', unchecked') {
      StillStored(arrivals[j], txs, unchecked, txs', unchecked');
    }
    assert forall j | 0 <= j < i :: arrivals[..i][j] == arrivals[j] && arrivals[..i + 1][j] == arrivals[j];
  }

  lemma OneMoreCame(arrivals: seq<Arrival>, i: nat, came: set<PriorityId>, came': set<PriorityId>)
    requires i < |arrivals| && ComeFrom(came, arrivals[..i]) && forall m | m in came' - came :: m.key == arrivals[i].key
    ensures ComeFrom(came', arrivals[..i + 1])
  {
    forall m | m in came' ensures exists a :: a in arrivals[..i + 1] && a.key == m.key {
      if m in came {
        var a :| a in arrivals[..i] && a.key == m.key;
        assert a in arrivals[..i + 1];
      } else {
        assert arrivals[..i + 1][i] == arrivals[i];
      }
    }
  }

  /** What is new carries a new key, so what was evicted does not come back. */
  lemma WhatCame(before: set<PriorityId>, kept: set<PriorityId>, after: set<PriorityId>, arrivals: seq<Arrival>)
    requires kept <= before && kept <= after
    requires ComeFrom(after - kept, arrivals)
    requires forall a, m | a in arrivals && m in before :: m.key != a.key
    ensures before - after == before - kept && before * after == kept && after - before == after - kept
    ensures |before - after| == |before| - |kept|
  {
    forall m | m in after - kept ensures m !in before {
      var a :| a in arrivals && a.key == m.key;
    }
    assert before - after == before - kept;
    assert before == kept + (before - kept);
  }

  lemma LabelIs(a: Arrival)
    requires a.costReward.Some?
    ensures var (cost, reward) := a.costReward.value;
      a.Label().locks == a.locks && a.Label().cost == cost && IsPriority(a.Label().priority, cost, reward)
  {
    PriorityIs(a.costReward.value.0, a.costReward.value.1);
  }

  function Admissions(arrivals: seq<Arrival>): seq<Event> {
    if arrivals == [] then []
    else
      var before := Admissions(arrivals[..|arrivals| - 1]);
      var a := arrivals[|arrivals| - 1];
      if a.Accepted() then before + [Admit(a.key, a.Label())] else before
  }

  function Repeat(e: Event, n: nat): seq<Event> {
    seq(n, _ => e)
  }

  /** Room is made for everything that may come in, then what comes in is admitted. */
  function TpuEvents(w: World, arrivals: seq<Arrival>, tpuLen: nat, maxCount: nat): seq<Event> {
    var additional := if tpuLen < maxCount then tpuLen else maxCount;
    Repeat(EvictUnchecked, SatSub(|w.unchecked| + additional, w.cfg.uncheckedCapacity)) + Admissions(arrivals)
  }

  /** A new transaction is admitted, or leaves no trace. */
  lemma AdmissionIs(w: World, a: Arrival)
    requires DistinctAccounts(a.locks) && (a.Accepted() ==> |w.unchecked| < w.cfg.uncheckedCapacity)
    requires a.key !in w.txs && forall m | m in w.checks :: m.key != a.key
    ensures var w1 := w.(txs := w.txs[a.key := a.Label()]);
      && (!a.Accepted() ==> Drop(w1, a.key) == w)
      && (a.Accepted() ==>
            && Enabled(w, Admit(a.key, a.Label()))
            && Apply(w, Admit(a.key, a.Label())) == w1.(unchecked := w.unchecked + {MetaOf(a.key, a.Label())}))
  {
    assert w.txs[a.key := a.Label()] - {a.key} == w.txs;
    assert w.checks[MetaOf(a.key, a.Label()) := 0] == w.checks;
  }

  /** Keys the bridge has just handed out, with one lock per account each. */
  ghost predicate FreshArrivals(arrivals: seq<Arrival>, txs: map<Key, Tx>) {
    && (forall a | a in arrivals :: a.key !in txs && DistinctAccounts(a.locks))
    && (forall i, j | 0 <= i < j < |arrivals| :: arrivals[i].key != arrivals[j].key)
  }

  /** One transaction of a bundle: whether the bridge could insert it, its cost and reward
      if they could be derived, its tip, and whether it names a filtered account. */
  datatype Packet = Packet(key: Key, locks: seq<Lock>, inserted: bool, costReward: Option<(nat, nat)>, tip: nat, filtered: bool)

  function KeysOf(ps: seq<Packet>): seq<Key> {
    seq(|ps|, i requires 0 <= i < |ps| => ps[i].key)
  }

  /** Every transaction of the bundle could be inserted and scored, and none is filtered. */
  predicate AcceptedAll(ps: seq<Packet>) {
    forall i | 0 <= i < |ps| :: ps[i].inserted && ps[i].costReward.Some? && !ps[i].filtered
  }

  function TotalCost(ps: seq<Packet>): nat {
    if ps == [] then 0
    else
      var p := ps[|ps| - 1];
      TotalCost(ps[..|ps| - 1]) + if p.costReward.Some? then p.costReward.value.0 else 0
  }

  function TotalReward(ps: seq<Packet>): nat {
    if ps == [] then 0
    else
      var p := ps[|ps| - 1];
      TotalReward(ps[..|ps| - 1]) + (if p.costReward.Some? then p.costReward.value.1 else 0) + p.tip
  }

  function Costs(ps: seq<Packet>): seq<nat> {
    seq(|ps|, i requires 0 <= i < |ps| => if ps[i].costReward.Some? then ps[i].costReward.value.0 else 0)
  }

  function RewardsAndTips(ps: seq<Packet>): seq<nat> {
    seq(|ps|, i requires 0 <= i < |ps| => (if ps[i].costReward.Some? then ps[i].costReward.value.1 else 0) + ps[i].tip)
  }

  lemma {:induction false} TotalsAreSums(ps: seq<Packet>)
    ensures TotalCost(ps) == Sum(Costs(ps)) && TotalReward(ps) == Sum(RewardsAndTips(ps))
  {
    if ps != [] {
      var n := |ps| - 1;
      TotalsAreSums(ps[..n]);
      assert Costs(ps)[..n] == Costs(ps[..n]) && RewardsAndTips(ps)[..n] == RewardsAndTips(ps[..n]);
    }
  }

  function BundleOf(ps: seq<Packet>, now: nat): BundleId {
    var cost := TotalCost(ps);
    BundleId(SatMul(TotalReward(ps), PRIORITY_MULTIPLIER) / (if cost > 1 then cost else 1), cost, now, KeysOf(ps))
  }

  /** The bundle's transactions as the bridge holds them; the first carries the cost. */
  function BundleLabels(ps: seq<Packet>, cost: nat): map<Key, Tx> {
    if ps == [] then map[]
    else
      var n := |ps| - 1;
      BundleLabels(ps[..n], cost)[ps[n].key := Tx(ps[n].locks, BUNDLE_MARKER, if n == 0 then cost else 0)]
  }

  /** What a bundle does: nothing, or an admission after making room for it. */
  ghost function BundleEvents(w: World, ps: seq<Packet>, now: nat): seq<Event> {
    if !AcceptedAll(ps) then []
    else
      var admit := AdmitBundle(BundleOf(ps, now), BundleLabels(ps, TotalCost(ps)));
      if |w.bundles| == w.cfg.bundleCapacity && w.bundles != {} then [DropBundle(FirstBundle(w.bundles)), admit] else [admit]
  }

  ghost predicate FreshPackets(ps: seq<Packet>, txs: map<Key, Tx>) {
    && (forall i | 0 <= i < |ps| :: ps[i].key !in txs && DistinctAccounts(ps[i].locks))
    && (forall i, j | 0 <= i < j < |ps| :: ps[i].key != ps[j].key)
  }

  lemma {:induction false} BundleLabelsAt(ps: seq<Packet>, cost: nat)
    requires forall i, j | 0 <= i < j < |ps| :: ps[i].key != ps[j].key
    ensures forall k :: k in BundleLabels(ps, cost) <==> exists i :: 0 <= i < |ps| && ps[i].key == k
    ensures forall i | 0 <= i < |ps| ::
      ps[i].key in BundleLabels(ps, cost)
      && BundleLabels(ps, cost)[ps[i].key] == Tx(ps[i].locks, BUNDLE_MARKER, if i == 0 then cost else 0)
  {
    if ps != [] {
      var n := |ps| - 1;
      var front := ps[..n];
      BundleLabelsAt(front, cost);
      forall k ensures k in BundleLabels(ps, cost) <==> exists i :: 0 <= i < |ps| && ps[i].key == k {
        if i :| 0 <= i < |ps| && ps[i].key == k {
          assert i < n ==> front[i].key == k;
        }
        if k in BundleLabels(front, cost) {
          var i :| 0 <= i < n && front[i].key == k;
          assert ps[i].key == k;
        }
        assert ps[n].key in BundleLabels(ps, cost);
      }
      forall i | 0 <= i < |ps| ensures BundleLabels(ps, cost)[ps[i].key] == Tx(ps[i].locks, BUNDLE_MARKER, if i == 0 then cost else 0) {
        if i < n {
          assert front[i] == ps[i] && ps[i].key != ps[n].key;
        }
      }
    }
  }

  lemma BundleLabelsKeys(ps: seq<Packet>, cost: nat)
    requires forall i, j | 0 <= i < j < |ps| :: ps[i].key != ps[j].key
    ensures DistinctKeys(KeysOf(ps)) && BundleLabels(ps, cost).Keys == KeySet(KeysOf(ps))
  {
    BundleLabelsAt(ps, cost);
    assert forall i | 0 <= i < |ps| :: KeysOf(ps)[i] == ps[i].key;
  }

  /** What has been gathered from the first `i` packets, the last of which is the one that
      failed unless `ok`. */
  ghost predicate Collected(ps: seq<Packet>, i: nat, ok: bool, keys: seq<Key>, cost: nat, reward: nat, added: map<Key, Tx>) {
    && i <= |ps|
    && (forall j | 0 <= j < |keys| :: j < |ps| && keys[j] == ps[j].key)
    && (ok <==> forall j | 0 <= j < i :: ps[j].inserted && ps[j].costReward.Some?)
    && (ok ==> |keys| == i && cost == TotalCost(ps[..i]) && reward == TotalReward(ps[..i]) && added == BundleLabels(ps[..i], 0))
  }

  lemma CollectedStep(ps: seq<Packet>, txs: map<Key, Tx>, i: nat, keys: seq<Key>, cost: nat, reward: nat, added: map<Key, Tx>)
    requires Collected(ps, i, true, keys, cost, reward, added) && i < |ps| && FreshPackets(ps, txs)
    ensures ps[i].key !in txs && ps[i].key !in keys
    ensures var p := ps[i]; var more := added[p.key := Tx(p.locks, BUNDLE_MARKER, 0)];
      && (!p.inserted ==> Collected(ps, i + 1, false, keys, cost, reward, added))
      && (p.inserted && p.costReward.None? ==> Collected(ps, i + 1, false, keys + [p.key], cost, reward, more))
      && (p.inserted && p.costReward.Some? ==>
            Collected(ps, i + 1, true, keys + [p.key], cost + p.costReward.value.0, reward + p.costReward.value.1 + p.tip, more))
  {
    assert ps[..i + 1][..i] == ps[..i];
  }

  lemma CollectedEnd(ps: seq<Packet>, i: nat, ok: bool, keys: seq<Key>, cost: nat, reward: nat, added: map<Key, Tx>)
    requires Collected(ps, i, ok, keys, cost, reward, added) && (ok ==> i == |ps|)
    ensures ok <==> forall j | 0 <= j < |ps| :: ps[j].inserted && ps[j].costReward.Some?
    ensures ok ==> keys == KeysOf(ps) && cost == TotalCost(ps) && reward == TotalReward(ps) && added == BundleLabels(ps, 0)
  {
    assert ps[..|ps|] == ps;
  }

  lemma LabelsAreNew(ps: seq<Packet>, txs: map<Key, Tx>)
    requires FreshPackets(ps, txs)
    ensures txs.Keys !! BundleLabels(ps, 0).Keys
  {
    BundleLabelsAt(ps, 0);
  }

  /** The state after making room for one more bundle. */
  ghost function RoomForBundle(w: World): World {
    if |w.bundles| == w.cfg.bundleCapacity && w.bundles != {} then
      var b := FirstBundle(w.bundles);
      w.(txs := w.txs - KeySet(b.keys), bundles := w.bundles - {b})
    else w
  }

  ghost function RoomEvents(w: World): seq<Event> {
    if |w.bundles| == w.cfg.bundleCapacity && w.bundles != {} then [DropBundle(FirstBundle(w.bundles))] else []
  }

  lemma RoomIsMade(w: World)
    ensures Possible(w, RoomEvents(w)) && Run(w, RoomEvents(w)) == RoomForBundle(w)
  {
    hide Possible, Run;
    NoStep(w);
    if |w.bundles| == w.cfg.bundleCapacity && w.bundles != {} {
      FirstBundleIsIn(w.bundles);
      OneStep(w, DropBundle(FirstBundle(w.bundles)));
    }
  }

  lemma FewerTransactions(w: World, ps: seq<Packet>)
    requires FreshPackets(ps, w.txs)
    ensures FreshPackets(ps, RoomForBundle(w).txs)
  {
  }

  lemma BundleAdmitted(w: World, ps: seq<Packet>, now: nat)
    requires Inv(w) && FreshPackets(ps, w.txs) && AcceptedAll(ps) && ps != [] && w.cfg.bundleCapacity > 0
    ensures Possible(w, BundleEvents(w, ps, now)) && Inv(Run(w, BundleEvents(w, ps, now)))
    ensures var w1 := RoomForBundle(w);
      Run(w, BundleEvents(w, ps, now)) ==
        w1.(txs := w1.txs + BundleLabels(ps, TotalCost(ps)), bundles := w1.bundles + {BundleOf(ps, now)})
  {
    hide Inv, BundleLabels, BundleOf, FreshPackets, Run, Possible, Enabled;
    var b, added := BundleOf(ps, now), BundleLabels(ps, TotalCost(ps));
    InvCapacity(w);
    var before := RoomEvents(w);
    var w1 := RoomForBundle(w);
    RoomIsMade(w);
    FewerTransactions(w, ps);
    BundleCanEnter(w1, ps, now);
    RunSnoc(w, before, AdmitBundle(b, added));
    assert before + [AdmitBundle(b, added)] == BundleEvents(w, ps, now);
    RunKeepsInv(w, BundleEvents(w, ps, now));
  }

  /** The bundle carries the keys in order and the sum of the costs, which its first
      transaction carries too. */
  ghost predicate Carries(b: BundleId, ps: seq<Packet>, now: nat, txs: map<Key, Tx>) {
    && b.cost == Sum(Costs(ps)) && b.receivedAt == now && |b.keys| == |ps|
    && forall i | 0 <= i < |ps| ::
         && b.keys[i] == ps[i].key && ps[i].key in txs
         && txs[ps[i].key] == Tx(ps[i].locks, 0xFFFF_FFFF_FFFF_FFFF, if i == 0 then b.cost else 0)
  }

  /** The lowest bundle is gone with its transactions. */
  ghost predicate LosesLowestBundle(before: set<BundleId>, after: set<BundleId>, txs: map<Key, Tx>) {
    exists low :: low in before && (forall c | c in before && c != low :: BundleBelow(low, c))
                  && after == before - {low} && forall k | k in low.keys :: k !in txs
  }

  lemma LowestBundleGoes(bundles: set<BundleId>, txs: map<Key, Tx>)
    requires bundles != {}
    ensures LosesLowestBundle(bundles, bundles - {FirstBundle(bundles)}, txs - KeySet(FirstBundle(bundles).keys))
  {
    var low := FirstBundle(bundles);
    assert IsFirstBundle(bundles, low);
    hide FirstBundle;
    assert forall k | k in low.keys :: k in KeySet(low.keys);
  }

  /** The rewards and tips of all, a million times and kept within 64 bits, over the costs of
      all, rounded down. */
  lemma BundlePriorityIs(ps: seq<Packet>, now: nat)
    ensures var cost, reward := Sum(Costs(ps)), Sum(RewardsAndTips(ps));
      IsQuotient(BundleOf(ps, now).priority,
                 if reward * 1_000_000 <= 0xFFFF_FFFF_FFFF_FFFF then reward * 1_000_000 else 0xFFFF_FFFF_FFFF_FFFF,
                 if cost > 1 then cost else 1)
  {
    TotalsAreSums(ps);
    var cost := TotalCost(ps);
    QuotientIs(SatMul(TotalReward(ps), PRIORITY_MULTIPLIER), if cost > 1 then cost else 1);
  }

  lemma BundleCarries(ps: seq<Packet>, now: nat, txs: map<Key, Tx>)
    requires forall i, j | 0 <= i < j < |ps| :: ps[i].key != ps[j].key
    ensures Carries(BundleOf(ps, now), ps, now, txs + BundleLabels(ps, TotalCost(ps)))
  {
    TotalsAreSums(ps);
    BundleLabelsAt(ps, TotalCost(ps));
  }

  lemma RoomTakesLowest(w: World, ps: seq<Packet>)
    requires Inv(w) && FreshPackets(ps, w.txs) && |w.bundles| == w.cfg.bundleCapacity && w.bundles != {}
    ensures LosesLowestBundle(w.bundles, RoomForBundle(w).bundles, RoomForBundle(w).txs + BundleLabels(ps, TotalCost(ps)))
  {
    var low := FirstBundle(w.bundles);
    assert IsFirstBundle(w.bundles, low);
    BundleFacts(w, low);
    BundleLabelsAt(ps, TotalCost(ps));
    hide Inv, FirstBundle;
    forall k | k in low.keys ensures k !in RoomForBundle(w).txs + BundleLabels(ps, TotalCost(ps)) {
      assert k in KeySet(low.keys) && k in w.txs;
    }
  }

  lemma NewBundleIsNew(w: World, ps: seq<Packet>, now: nat)
    requires Inv(w) && FreshPackets(ps, w.txs) && ps != []
    ensures BundleOf(ps, now) !in w.bundles
  {
    forall b, k | b in w.bundles && k in b.keys ensures k in w.txs {
      BundleFacts(w, b);
    }
    assert KeysOf(ps)[0] == ps[0].key;
  }

  /** A bundle without transactions, or no room for any bundle: taking it in fails. */
  lemma BundleFails(w: World, ps: seq<Packet>, now: nat)
    requires |w.bundles| <= w.cfg.bundleCapacity && AcceptedAll(ps) && (ps == [] || w.cfg.bundleCapacity == 0)
    ensures !Possible(w, BundleEvents(w, ps, now))
  {
    var admit := AdmitBundle(BundleOf(ps, now), BundleLabels(ps, TotalCost(ps)));
    var es := BundleEvents(w, ps, now);
    if |es| == 2 {
      assert es[1..] == [admit] && ps == [];
    }
  }

  lemma BundleCanEnter(w: World, ps: seq<Packet>, now: nat)
    requires FreshPackets(ps, w.txs) && ps != [] && |w.bundles| < w.cfg.bundleCapacity
    ensures Enabled(w, AdmitBundle(BundleOf(ps, now), BundleLabels(ps, TotalCost(ps))))
  {
    var cost := TotalCost(ps);
    var added := BundleLabels(ps, cost);
    BundleLabelsAt(ps, cost);
    BundleLabelsKeys(ps, cost);
    assert forall i | 0 <= i < |ps| :: KeysOf(ps)[i] == ps[i].key;
    forall k | k in added ensures k !in w.txs && DistinctAccounts(added[k].locks) {
      var i :| 0 <= i < |ps| && ps[i].key == k;
    }
  }

  /** Relabelling the first transaction with the cost gives the final labels. */
  lemma CostLabelled(ps: seq<Packet>, cost: nat)
    requires ps != [] && forall i, j | 0 <= i < j < |ps| :: ps[i].key != ps[j].key
    ensures ps[0].key in BundleLabels(ps, 0) && BundleLabels(ps, 0)[ps[0].key].locks == ps[0].locks
    ensures BundleLabels(ps, 0)[ps[0].key := Tx(ps[0].locks, BUNDLE_MARKER, cost)] == BundleLabels(ps, cost)
  {
    BundleLabelsAt(ps, 0);
    BundleLabelsAt(ps, cost);
    var relabelled := BundleLabels(ps, 0)[ps[0].key := Tx(ps[0].locks, BUNDLE_MARKER, cost)];
    forall k | k in BundleLabels(ps, cost) ensures relabelled[k] == BundleLabels(ps, cost)[k] {
      var i :| 0 <= i < |ps| && ps[i].key == k;
    }
    assert relabelled.Keys == BundleLabels(ps, cost).Keys;
  }

  lemma RemoveFromFirst(txs: map<Key, Tx>, added: map<Key, Tx>, gone: set<Key>)
    requires added.Keys !! gone
    ensures txs + added - gone == txs - gone + added
  {
  }

  lemma KeyFacts(w: World)
    requires Inv(w)
    ensures w.executing <= w.txs.Keys
    ensures forall m | m in w.checks :: m.key in w.txs
  {
  }

  lemma AddOneMore(txs: map<Key, Tx>, added: map<Key, Tx>, k: Key, tx: Tx)
    ensures (txs + added)[k := tx] == txs + added[k := tx]
  {
  }

  lemma AddedThenRemoved(txs: map<Key, Tx>, added: map<Key, Tx>)
    requires txs.Keys !! added.Keys
    ensures txs + added - added.Keys == txs
  {
  }

  lemma BundleFacts(w: World, b: BundleId)
    requires Inv(w) && b in w.bundles
    ensures DistinctKeys(b.keys)
    ensures forall k | k in b.keys :: k in w.txs && k !in w.executing
    ensures forall m | m in w.checks :: m.key !in b.keys
  {
    forall i | 0 <= i < |b.keys| ensures b.keys[i] in w.txs && w.txs[b.keys[i]].priority == BUNDLE_MARKER {
      assert MetaOf(b.keys[i], w.txs[b.keys[i]]) == BundleMeta(b, i);
    }
  }

  lemma UncheckedFacts(w: World)
    requires Inv(w)
    ensures forall m | m in w.unchecked :: m.key in w.txs && m.key !in w.executing
  {
  }

  lemma InvCapacity(w: World)
    requires Inv(w)
    ensures |w.unchecked| <= w.cfg.uncheckedCapacity && |w.bundles| <= w.cfg.bundleCapacity
    ensures InFlightCus(w) <= MAX_BLOCK_UNITS
  {
  }

  /** What a packet does: nothing, or an admission after making room for it. */
  function PacketEvents(w: World, a: Arrival): seq<Event> {
    if !a.Accepted() then []
    else if |w.unchecked| == w.cfg.uncheckedCapacity then [EvictUnchecked, Admit(a.key, a.Label())]
    else [Admit(a.key, a.Label())]
  }

  lemma PacketEventsAre(w: World, a: Arrival)
    ensures PacketEvents(w, a) ==
      if a.costReward.None? || a.filtered then []
      else if |w.unchecked| == w.cfg.uncheckedCapacity then [EvictUnchecked] + [Admit(a.key, a.Label())]
      else [] + [Admit(a.key, a.Label())]
  {
  }

  /** With nothing to evict, an eviction fails. */
  lemma NothingToEvict(w: World, a: Arrival)
    requires w.unchecked == {} && w.cfg.uncheckedCapacity == 0 && a.Accepted()
    ensures !Possible(w, PacketEvents(w, a))
  {
  }

  lemma NewKeyFacts(w: World, k: Key)
    requires Inv(w) && k !in w.txs
    ensures forall m | m in w.checks :: m.key != k
    ensures k !in w.executing && w.executing <= w.txs.Keys
    ensures forall m | m in w.unchecked :: m.key in w.txs && m.key !in w.executing && m.key != k
  {
  }

  lemma DropBundleIs(w: World, b: BundleId)
    requires b in w.bundles
    ensures Enabled(w, DropBundle(b)) && Apply(w, DropBundle(b)).bundles == w.bundles - {b}
  {
  }

  /** The trace with one more bundle dropped. */
  ghost function SnocDrop(w: World, trace: seq<Event>, b: BundleId): (more: seq<Event>)
    requires Possible(w, trace) && Enabled(Run(w, trace), DropBundle(b))
    requires forall e | e in trace :: e.DropBundle?
    ensures Possible(w, more) && Run(w, more) == Apply(Run(w, trace), DropBundle(b))
    ensures forall e | e in more :: e.DropBundle?
  {
    RunSnoc(w, trace, DropBundle(b));
    trace + [DropBundle(b)]
  }

  lemma NoStep(w: World)
    ensures Possible(w, []) && Run(w, []) == w
  {
  }

  /** Making room evicts the lowest transactions: whatever it takes is below whatever it
      keeps, and its key is forgotten. */
  lemma {:induction false} EvictionsTakeTheLowest(w: World, n: nat)
    requires Possible(w, Repeat(EvictUnchecked, n))
    ensures var w' := Run(w, Repeat(EvictUnchecked, n));
      && w'.unchecked <= w.unchecked && |w'.unchecked| + n == |w.unchecked|
      && (forall x, y | x in w.unchecked - w'.unchecked && y in w'.unchecked :: Below(x, y))
      && (forall x | x in w.unchecked - w'.unchecked :: x.key !in w'.txs)
      && w'.txs.Keys <= w.txs.Keys && w'.checked == w.checked && w'.bundles == w.bundles
    decreases n
  {
    hide Free;
    if n > 0 {
      var e := Repeat(EvictUnchecked, n);
      assert e[1..] == Repeat(EvictUnchecked, n - 1);
      EvictionsTakeTheLowest(Apply(w, EvictUnchecked), n - 1);
    }
  }

  /** As many transactions can be evicted as there are. */
  lemma {:induction false} EvictionsPossible(w: World, n: nat)
    requires Inv(w)
    ensures Possible(w, Repeat(EvictUnchecked, n)) <==> n <= |w.unchecked|
    decreases n
  {
    hide Inv;
    var es := Repeat(EvictUnchecked, n);
    if n > 0 {
      assert es[0] == EvictUnchecked && es[1..] == Repeat(EvictUnchecked, n - 1);
      UncheckedFacts(w);
      if w.unchecked != {} {
        var w' := Apply(w, EvictUnchecked);
        EventKeepsInv(w, EvictUnchecked);
        assert |w'.unchecked| == |w.unchecked| - 1;
        EvictionsPossible(w', n - 1);
      }
    }
  }

  /** Room can be made for as many transactions as the queue can hold, and no more: beyond
      that an eviction finds nothing. */
  lemma RoomCanBeMadeIff(w: World, additional: nat)
    requires Inv(w)
    ensures Possible(w, Repeat(EvictUnchecked, SatSub(|w.unchecked| + additional, w.cfg.uncheckedCapacity)))
       <==> additional <= w.cfg.uncheckedCapacity
  {
    InvCapacity(w);
    EvictionsPossible(w, SatSub(|w.unchecked| + additional, w.cfg.uncheckedCapacity));
  }

  /** A fresh scheduler with less room than the validator may hand over at once already
      fails. */
  lemma RoomCanBeMissing(cfg: Config, additional: nat)
    requires additional > cfg.uncheckedCapacity
    ensures !Possible(Init(cfg), Repeat(EvictUnchecked, SatSub(|Init(cfg).unchecked| + additional, cfg.uncheckedCapacity)))
  {
    InitInv(cfg);
    RoomCanBeMadeIff(Init(cfg), additional);
  }
}
