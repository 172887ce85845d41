/** Capacities and compute units over every event, and the invariant over every run. */
module Capacity {
  import opened Orders
  import opened Locks
  import opened Protocol
  import opened Sets
  import opened Invariant
  import opened Steps

  // ---- Compute units ----

  lemma {:induction false} SumCostBundle(ms: multiset<PriorityId>, b: BundleId, n: nat)
    requires n <= |b.keys|
    ensures SumCost(ms + multiset(BundleBatch(b)[..n])) == SumCost(ms) + if n == 0 then 0 else b.cost
  {
    var batch := BundleBatch(b);
    if n == 0 {
      assert ms + multiset(batch[..0]) == ms;
    } else {
      SumCostBundle(ms, b, n - 1);
      assert batch[..n] == batch[..n - 1] + [batch[n - 1]];
      assert ms + multiset(batch[..n]) == ms + multiset(batch[..n - 1]) + multiset{batch[n - 1]};
      SumCostAdd(ms + multiset(batch[..n - 1]), batch[n - 1]);
    }
  }

  /** A batch adds its candidate's cost once, however many metas it has. */
  lemma SumCostBatch(ms: multiset<PriorityId>, c: Candidate)
    requires c.Keys() != []
    ensures SumCost(ms + multiset(c.Batch())) == SumCost(ms) + c.Cost()
  {
    match c
    case Single(m) =>
      assert multiset([m]) == multiset{m};
      SumCostAdd(ms, m);
    case Pack(b) =>
      SumCostBundle(ms, b, |b.keys|);
      assert BundleBatch(b)[..|b.keys|] == BundleBatch(b);
  }

  // ---- The load on the checked side ----

  /** Steps that leave the executing transactions alone leave the loose ones alone. */
  lemma SameLoose(w: World, w': World)
    requires w'.executing == w.executing
    requires forall k | k in w.executing :: k in w.txs && k in w'.txs && w'.txs[k] == w.txs[k]
    ensures LooseExecuting(w') == LooseExecuting(w)
  {
  }

  /** What the capacity proofs need to know of the containers. */
  lemma ExecutingApart(w: World)
    requires Sound(w, {})
    ensures forall k | k in w.executing :: k in w.txs
    ensures forall m | m in w.checked :: m.key in w.txs && m.key !in w.executing
    ensures forall m | m in w.unchecked :: m.key !in w.executing
    ensures w.checked !! w.deferred
  {
  }

  lemma EvictionLightens(w: World)
    requires w.checked != {}
    requires forall k | k in w.executing :: k in w.txs
    requires forall m | m in w.checked :: m.key in w.txs && m.key !in w.executing
    ensures Load(EvictChecked(w)) == Load(w) - 1
    ensures EvictChecked(w).executes == w.executes
  {
    SameLoose(w, EvictChecked(w));
  }

  lemma LooseIsPending(w: World)
    ensures Load(w) <= PendingLen(w)
  {
    SubsetSize(LooseExecuting(w), w.executing);
  }

  lemma OnCheckCapacity(w: World, m: PriorityId, verdict: CheckVerdict)
    requires Sound(w, {}) && WithinCapacity(w) && IsMeta(w, m)
    requires NeedsEviction(w, m, verdict) ==> w.checked != {} && First(w.checked).key in w.txs
    ensures WithinCapacity(OnCheck(w, m, verdict))
  {
    ExecutingApart(w);
    var w1 := w.(checks := w.checks - multiset{m});
    SameLoose(w, w1);
    hide Sound, LooseExecuting;
    if m.key in w.executing || m in w.deferred {
    } else if verdict.CheckFailed? {
      RejectCapacity(w1, m);
    } else if m in w.checked {
    } else if verdict.CheckFiltered? {
      RejectCapacity(w1, m);
    } else {
      FirstCheckCapacity(w1, m);
    }
  }

  lemma RejectCapacity(w: World, m: PriorityId)
    requires WithinCapacity(w) && IsMeta(w, m) && m.key !in w.executing
    requires forall k | k in w.executing :: k in w.txs
    ensures WithinCapacity(Drop(w, m.key))
    ensures WithinCapacity(Drop(w.(checked := w.checked - {m}), m.key))
  {
    SameLoose(w, Drop(w, m.key));
    SameLoose(w, Drop(w.(checked := w.checked - {m}), m.key));
  }

  lemma FirstCheckCapacity(w: World, m: PriorityId)
    requires WithinCapacity(w) && m !in w.checked
    requires forall k | k in w.executing :: k in w.txs
    requires forall x | x in w.checked :: x.key in w.txs && x.key !in w.executing
    requires PendingLen(w) >= w.cfg.checkedCapacity ==> w.checked != {}
    ensures PendingLen(w) >= w.cfg.checkedCapacity ==> First(w.checked).key in w.txs
    ensures var w1 := EvictIfFull(w); WithinCapacity(w1.(checked := w1.checked + {m}))
  {
    LooseIsPending(w);
    if PendingLen(w) >= w.cfg.checkedCapacity {
      EvictionLightens(w);
    }
    var w1 := EvictIfFull(w);
    SameLoose(w1, w1.(checked := w1.checked + {m}));
  }

  lemma FinishedLoad(w: World, m: PriorityId)
    requires Sound(w, {}) && m in w.executes
    ensures Load(Finished(w, m)) == if m.priority < BUNDLE_MARKER then Load(w) - 1 else Load(w)
    ensures InFlightCus(Finished(w, m)) + m.cost == InFlightCus(w)
    ensures m !in w.checked && m !in w.deferred
  {
    var k, txs, executing := m.key, w.txs, w.executing;
    assert k in executing && k in txs && txs[k].priority == m.priority;
    assert m !in w.checked && m !in w.deferred;
    hide Sound;
    SumCostRemove(w.executes, m);
    assert LooseExecuting(Finished(w, m)) == LooseExecuting(w) - {k};
    assert k in LooseExecuting(w) <==> m.priority < BUNDLE_MARKER;
  }

  lemma OnExecuteCapacity(w: World, m: PriorityId, outcome: Outcome)
    requires WithinCapacity(w) && m in w.executes && IsMeta(w, m) && m.priority <= BUNDLE_MARKER
    requires m !in w.checked && m !in w.deferred
    requires Load(Finished(w, m)) == if m.priority < BUNDLE_MARKER then Load(w) - 1 else Load(w)
    requires InFlightCus(Finished(w, m)) <= InFlightCus(w)
    requires forall k | k in w.executing :: k in w.txs
    requires forall x | x in w.checked :: x.key in w.txs && x.key !in w.executing
    ensures WithinCapacity(OnExecute(w, m, outcome))
  {
    var w1 := Finished(w, m);
    if m.priority == BUNDLE_MARKER || (outcome.Executed? && !IsRetryable(outcome.reason)) {
      SameLoose(w1, Drop(w1, m.key));
    } else {
      PutBackCapacity(w1, m);
    }
  }

  lemma PutBackCapacity(w: World, m: PriorityId)
    requires WithinCapacity(w) && Load(w) < w.cfg.checkedCapacity
    requires IsMeta(w, m) && m !in w.checked && m !in w.deferred && m.key !in w.executing
    requires forall k | k in w.executing :: k in w.txs
    requires forall x | x in w.checked :: x.key in w.txs && x.key !in w.executing
    ensures var w2 := w.(checked := w.checked + {m}); WithinCapacity(w2) && WithinCapacity(EvictChecked(w2))
    ensures var w3 := w.(deferred := w.deferred + {m}); WithinCapacity(w3) && (w3.checked != {} ==> WithinCapacity(EvictChecked(w3)))
  {
    var w2 := w.(checked := w.checked + {m});
    var w3 := w.(deferred := w.deferred + {m});
    SameLoose(w, w2);
    SameLoose(w, w3);
    EvictionLightens(w2);
    if w3.checked != {} { EvictionLightens(w3); }
  }

  lemma OneMoreLoose(w: World, w': World, k: Key)
    requires k in w.txs && w.txs[k].priority < BUNDLE_MARKER && k !in w.executing
    requires w'.txs == w.txs && w'.executing == w.executing + {k}
    ensures |LooseExecuting(w')| == |LooseExecuting(w)| + 1
  {
    assert LooseExecuting(w') == LooseExecuting(w) + {k};
  }

  lemma StartSingleLoad(w: World, m: PriorityId)
    requires m in w.checked && m.key in w.txs && w.txs[m.key].priority < BUNDLE_MARKER && m.key !in w.executing
    ensures Load(Start(w, Single(m))) == Load(w)
  {
    hide LooseExecuting;
    var w' := Start(w, Single(m));
    assert KeySet([m.key]) == {m.key};
    OneMoreLoose(w, w', m.key);
    assert |w'.checked| == |w.checked| - 1;
  }

  lemma StartSingleCapacity(w: World, m: PriorityId)
    requires Sound(w, {}) && WithinCapacity(w) && m in w.checked
    requires InFlightCus(w) + m.cost <= MAX_BLOCK_UNITS
    ensures WithinCapacity(Start(w, Single(m)))
  {
    ExecutingApart(w);
    assert w.txs[m.key].priority < BUNDLE_MARKER;
    hide Sound;
    StartSingleLoad(w, m);
    hide Load;
    SumCostBatch(w.executes, Single(m));
  }

  lemma StartPackLoad(w: World, b: BundleId)
    requires forall k | k in w.executing :: k in w.txs
    requires BundleTxs(b, w.txs)
    ensures Load(Start(w, Pack(b))) == Load(w)
  {
    forall k | k in KeySet(b.keys) ensures k in w.txs && w.txs[k].priority == BUNDLE_MARKER {
      var i :| 0 <= i < |b.keys| && b.keys[i] == k;
      assert MetaOf(k, w.txs[k]) == BundleMeta(b, i);
    }
    assert LooseExecuting(Start(w, Pack(b))) == LooseExecuting(w);
  }

  lemma StartPackCapacity(w: World, b: BundleId)
    requires Sound(w, {}) && WithinCapacity(w) && b in w.bundles
    requires InFlightCus(w) + b.cost <= MAX_BLOCK_UNITS
    ensures WithinCapacity(Start(w, Pack(b)))
  {
    ExecutingApart(w);
    assert b.keys != [] && BundleTxs(b, w.txs);
    hide Sound;
    StartPackLoad(w, b);
    hide Load;
    SumCostBatch(w.executes, Pack(b));
  }

  lemma StartTipsCapacity(w: World, k1: Key, tx1: Tx, k2: Key, tx2: Tx)
    requires Sound(w, {}) && WithinCapacity(w)
    requires k1 !in w.txs && k2 !in w.txs && tx1.cost == 0 && tx2.cost == 0
    requires tx1.priority == BUNDLE_MARKER && tx2.priority == BUNDLE_MARKER
    ensures WithinCapacity(TipsStarted(w, k1, tx1, k2, tx2))
  {
    ExecutingApart(w);
    hide Sound, WithinCapacity, TipsStarted;
    TipsWithinCapacity(w, k1, tx1, k2, tx2);
  }

  lemma TipsWithinCapacity(w: World, k1: Key, tx1: Tx, k2: Key, tx2: Tx)
    requires WithinCapacity(w) && forall k | k in w.executing :: k in w.txs
    requires k1 !in w.txs && k2 !in w.txs && tx1.cost == 0 && tx2.cost == 0
    requires tx1.priority == BUNDLE_MARKER && tx2.priority == BUNDLE_MARKER
    ensures WithinCapacity(TipsStarted(w, k1, tx1, k2, tx2))
  {
    assert LooseExecuting(TipsStarted(w, k1, tx1, k2, tx2)) == LooseExecuting(w);
    TipsAreFree(w.executes, MetaOf(k1, tx1), MetaOf(k2, tx2));
  }

  lemma TipsAreFree(ms: multiset<PriorityId>, m1: PriorityId, m2: PriorityId)
    requires m1.cost == 0 && m2.cost == 0
    ensures SumCost(ms + multiset{m1, m2}) == SumCost(ms)
  {
    SumCostAdd(ms, m1);
    SumCostAdd(ms + multiset{m1}, m2);
    assert ms + multiset{m1, m2} == ms + multiset{m1} + multiset{m2};
  }

  predicate IsQuiet(e: Event) {
    !e.CheckReply? && !e.ExecuteReply? && !e.StartHead? && !e.StartTips?
  }

  lemma BundleNotExecuting(w: World, b: BundleId)
    requires Sound(w, {}) && b in w.bundles
    ensures forall k | k in KeySet(b.keys) :: k !in w.executing
  {
  }

  /** Events that leave the executing transactions and their messages alone. */
  lemma QuietFrame(w: World, e: Event)
    requires Enabled(w, e) && IsQuiet(e)
    requires forall k | k in w.executing :: k in w.txs
    requires forall m | m in w.unchecked :: m.key !in w.executing
    requires e.DropBundle? ==> forall k | k in KeySet(e.bundle.keys) :: k !in w.executing
    ensures var w' := Apply(w, e);
      && w'.cfg == w.cfg && w'.executes == w.executes && w'.executing == w.executing
      && forall k | k in w.executing :: k in w'.txs && w'.txs[k] == w.txs[k]
  {
    hide Free;
  }

  lemma QuietLoose(w: World, e: Event)
    requires Sound(w, {}) && Enabled(w, e) && IsQuiet(e)
    ensures var w' := Apply(w, e);
      && w'.cfg == w.cfg && w'.executes == w.executes && LooseExecuting(w') == LooseExecuting(w)
  {
    ExecutingApart(w);
    assert e.DropBundle? ==> e.bundle in w.bundles;
    if e.DropBundle? {
      BundleNotExecuting(w, e.bundle);
    }
    hide Sound, Enabled, Apply, LooseExecuting;
    QuietFrame(w, e);
    SameLoose(w, Apply(w, e));
  }

  lemma QuietSizes(w: World, e: Event)
    requires w.checked !! w.deferred && Enabled(w, e) && IsQuiet(e)
    ensures var w' := Apply(w, e); |w'.checked| + |w'.deferred| == |w.checked| + |w.deferred|
  {
    hide Free;
    if e.Roll? {
      assert |w.checked + w.deferred| == |w.checked| + |w.deferred|;
    }
  }

  lemma QuietQueues(w: World, e: Event)
    requires WithinCapacity(w) && Enabled(w, e) && IsQuiet(e)
    ensures |Apply(w, e).unchecked| <= w.cfg.uncheckedCapacity
    ensures |Apply(w, e).bundles| <= w.cfg.bundleCapacity
  {
    hide Free, OnCheck, OnExecute, Start, TipsStarted, First, Last, Load, InFlightCus, DistinctAccounts, DistinctKeys, BundleTxs,
      NextRecheck, NextSweep;
  }

  // ---- The invariant, event by event and over runs ----

  lemma EventKeepsInv(w: World, e: Event)
    requires Inv(w) && Enabled(w, e)
    ensures Inv(Apply(w, e))
  {
    EventSound(w, e);
    EventCapacity(w, e);
    hide Sound, WithinCapacity, Apply, Enabled;
  }

  lemma EventCapacity(w: World, e: Event)
    requires Sound(w, {}) && WithinCapacity(w) && Enabled(w, e)
    ensures WithinCapacity(Apply(w, e))
  {
    hide Sound, WithinCapacity, Start, TipsStarted, OnCheck, OnExecute, First, Free;
    match e
    case CheckReply(m, verdict) => OnCheckCapacity(w, m, verdict);
    case ExecuteReply(m, outcome) => ExecuteReplyCapacity(w, m, outcome);
    case StartHead =>
      match Head(w.checked, w.bundles).value {
        case Single(m) => StartSingleCapacity(w, m);
        case Pack(b) => StartPackCapacity(w, b);
      }
    case StartTips(k1, tx1, k2, tx2) => StartTipsCapacity(w, k1, tx1, k2, tx2);
    case _ => QuietCapacity(w, e);
  }

  lemma ExecuteReplyCapacity(w: World, m: PriorityId, outcome: Outcome)
    requires Sound(w, {}) && WithinCapacity(w) && m in w.executes && IsMeta(w, m)
    requires forall x | x in w.checked :: x.key in w.txs
    ensures WithinCapacity(OnExecute(w, m, outcome))
  {
    assert m.priority <= BUNDLE_MARKER;
    ExecutingApart(w);
    FinishedLoad(w, m);
    hide Sound, WithinCapacity, Load, InFlightCus, OnExecute;
    OnExecuteCapacity(w, m, outcome);
  }

  lemma QuietCapacity(w: World, e: Event)
    requires Sound(w, {}) && WithinCapacity(w) && Enabled(w, e) && IsQuiet(e)
    ensures WithinCapacity(Apply(w, e))
  {
    ExecutingApart(w);
    QuietLoose(w, e);
    QuietSizes(w, e);
    QuietQueues(w, e);
    hide Sound, Apply, Enabled;
  }

  lemma InitInv(cfg: Config)
    ensures Inv(Init(cfg))
  {
  }

  lemma {:induction false} RunKeepsInv(w: World, es: seq<Event>)
    requires Inv(w) && Possible(w, es)
    ensures Inv(Run(w, es))
    decreases |es|
  {
    hide Inv, Apply, Enabled;
    if es != [] {
      EventKeepsInv(w, es[0]);
      RunKeepsInv(Apply(w, es[0]), es[1..]);
    }
  }
}
