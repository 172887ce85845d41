/** Every event keeps the invariant, so it holds in every reachable state. */
module Steps {
  import opened Orders
  import opened Locks
  import opened Protocol
  import opened Invariant

  // ---- Soundness of containers and messages ----

  lemma EvictCheckedSound(w: World, limbo: set<Key>)
    requires Sound(w, limbo) && w.checked != {}
    ensures Sound(EvictChecked(w), limbo)
  {
    var m := First(w.checked);
    LimboIsApart(w, limbo);
    TakeChecked(w, limbo, m);
    DropLimbo(w.(checked := w.checked - {m}), limbo + {m.key}, m.key);
    assert limbo + {m.key} - {m.key} == limbo;
  }

  lemma NewKeyIsUnknown(w: World, k: Key)
    requires Sound(w, {}) && k !in w.txs
    ensures forall m | m in w.checks :: m.key != k
    ensures k !in w.executing
    ensures w.executing <= w.txs.Keys
  {
  }

  lemma AdmitSound(w: World, k: Key, tx: Tx)
    requires Sound(w, {}) && k !in w.txs && tx.priority < BUNDLE_MARKER && DistinctAccounts(tx.locks)
    ensures Sound(w.(txs := w.txs[k := tx], unchecked := w.unchecked + {MetaOf(k, tx)}), {})
  {
    hide Sound, DistinctAccounts;
    NewKeyIsUnknown(w, k);
    var w1 := w.(txs := w.txs + map[k := tx]);
    Arrive(w, {}, map[k := tx]);
    assert w1.txs == w.txs[k := tx];
    assert {} + (map[k := tx]).Keys == {k};
    PutUnchecked(w1, {k}, MetaOf(k, tx));
    assert {k} - {k} == {};
  }

  lemma EvictUncheckedSound(w: World)
    requires Sound(w, {}) && Enabled(w, EvictUnchecked)
    ensures Sound(Apply(w, EvictUnchecked), {})
  {
    hide Sound;
    var m := First(w.unchecked);
    TakeUnchecked(w, {}, m);
    DropLimbo(w.(unchecked := w.unchecked - {m}), {} + {m.key}, m.key);
    assert {} + {m.key} - {m.key} == {};
  }

  lemma AdmitBundleSound(w: World, b: BundleId, added: map<Key, Tx>)
    requires Sound(w, {}) && Enabled(w, AdmitBundle(b, added))
    ensures Sound(Apply(w, AdmitBundle(b, added)), {})
  {
    hide Sound, DistinctAccounts, DistinctKeys;
    forall k | k in added ensures added[k].priority == BUNDLE_MARKER {
      assert k in KeySet(b.keys);
      var i :| 0 <= i < |b.keys| && b.keys[i] == k;
      assert MetaOf(k, added[k]) == BundleMeta(b, i);
    }
    Arrive(w, {}, added);
    var w1 := w.(txs := w.txs + added);
    assert BundleTxs(b, w1.txs);
    assert {} + added.Keys == KeySet(b.keys);
    PutBundle(w1, KeySet(b.keys), b);
    assert KeySet(b.keys) - KeySet(b.keys) == {};
  }

  lemma DropBundleSound(w: World, b: BundleId)
    requires Sound(w, {}) && Enabled(w, DropBundle(b))
    ensures Sound(Apply(w, DropBundle(b)), {})
  {
    var ks := KeySet(b.keys);
    forall k | k in ks ensures k in w.txs && w.txs[k].priority == BUNDLE_MARKER {
      var i :| 0 <= i < |b.keys| && b.keys[i] == k;
      assert MetaOf(k, w.txs[k]) == BundleMeta(b, i);
    }
    assert Purged(w.checks, ks, w.checks);
    hide Sound;
    TakeBundle(w, {}, b);
    var w1 := w.(bundles := w.bundles - {b});
    Forget(w1, {} + ks, ks, w.checks);
    assert {} + ks - ks == {};
    assert w1.(txs := w1.txs - ks, checks := w.checks) == Apply(w, DropBundle(b));
  }

  lemma SendCheckSound(w: World)
    requires Sound(w, {}) && Enabled(w, SendCheck)
    ensures Sound(Apply(w, SendCheck), {})
  {
    var m := Last(w.unchecked);
    assert IsMeta(w, m) && m.priority < BUNDLE_MARKER && m !in w.checks;
    hide Sound;
    TakeUnchecked(w, {}, m);
    PutFirstCheck(w.(unchecked := w.unchecked - {m}), {} + {m.key}, m);
    assert {} + {m.key} - {m.key} == {};
  }

  lemma CursorIsFree(w: World, limbo: set<Key>, c: Option<PriorityId>)
    requires Sound(w, limbo)
    ensures Sound(w.(cursor := c), limbo)
  {
  }

  lemma SendRecheckSound(w: World)
    requires Sound(w, {}) && Enabled(w, SendRecheck)
    ensures Sound(Apply(w, SendRecheck), {})
  {
    hide Sound;
    if NextRecheck(w).None? {
      CursorIsFree(w, {}, None);
    } else {
      var m := NextRecheck(w).value;
      PutRecheck(w, {}, m);
      CursorIsFree(w.(checks := w.checks + multiset{m}), {}, LastBelow(w.checked, m));
    }
  }

  lemma FirstCheckSound(w: World, m: PriorityId, verdict: CheckVerdict)
    requires Sound(w, {}) && m in w.checks && IsMeta(w, m) && IsFirstCheck(w, m)
    requires NeedsEviction(w, m, verdict) ==> w.checked != {} && First(w.checked).key in w.txs
    ensures Sound(OnCheck(w, m, verdict), {})
  {
    hide Sound, First, EvictIfFull, Drop;
    var w1 := w.(checks := w.checks - multiset{m});
    CheckedIdsAreLoose(w, m);
    TakeFirstCheckSound(w, m);
    if verdict.CheckOk? {
      FirstCheckOkSound(w1, m);
    } else {
      RejectSound(w1, m);
    }
  }

  lemma TakeFirstCheckSound(w: World, m: PriorityId)
    requires Sound(w, {}) && m in w.checks && IsFirstCheck(w, m)
    ensures Sound(w.(checks := w.checks - multiset{m}), {m.key})
  {
    hide Sound;
    TakeFirstCheck(w, {}, m);
    assert {} + {m.key} == {m.key};
  }

  lemma RejectSound(w: World, m: PriorityId)
    requires Sound(w, {m.key}) && IsMeta(w, m) && m !in w.checked
    ensures Sound(Drop(w, m.key), {})
    ensures Sound(Drop(w.(checked := w.checked - {m}), m.key), {})
  {
    hide Sound;
    assert w.checked - {m} == w.checked;
    DropLimbo(w, {m.key}, m.key);
    assert {m.key} - {m.key} == {};
  }

  lemma FirstCheckOkSound(w: World, m: PriorityId)
    requires Sound(w, {m.key}) && IsMeta(w, m) && m.priority != BUNDLE_MARKER
    requires PendingLen(w) >= w.cfg.checkedCapacity ==> w.checked != {} && First(w.checked).key in w.txs
    ensures Sound(EvictIfFull(w).(checked := EvictIfFull(w).checked + {m}), {})
  {
    hide Sound;
    if PendingLen(w) >= w.cfg.checkedCapacity {
      EvictThenPut(w, m);
    } else {
      PutChecked(w, {m.key}, m);
      assert {m.key} - {m.key} == {};
    }
  }

  lemma CheckedIdsAreLoose(w: World, m: PriorityId)
    requires Sound(w, {}) && m in w.checks
    ensures m.priority < BUNDLE_MARKER
  {
  }

  lemma EvictThenPut(w: World, m: PriorityId)
    requires Sound(w, {m.key}) && IsMeta(w, m) && m.priority != BUNDLE_MARKER && w.checked != {}
    ensures var w1 := EvictChecked(w); Sound(w1.(checked := w1.checked + {m}), {})
  {
    LimboIsApart(w, {m.key});
    EvictCheckedSound(w, {m.key});
    hide Sound;
    var w1 := EvictChecked(w);
    assert IsMeta(w1, m);
    PutChecked(w1, {m.key}, m);
    assert {m.key} - {m.key} == {};
  }

  lemma RecheckSound(w: World, m: PriorityId, verdict: CheckVerdict)
    requires Sound(w, {}) && Enabled(w, CheckReply(m, verdict)) && !IsFirstCheck(w, m)
    ensures Sound(OnCheck(w, m, verdict), {})
  {
    assert m in w.deferred ==> m !in w.checked;
    assert m in w.checked ==> m.key !in w.executing;
    var w1 := w.(checks := w.checks - multiset{m});
    hide Sound;
    TakeRecheck(w, {}, m);
    if m in w.checked && verdict.CheckFailed? {
      TakeChecked(w1, {}, m);
      DropLimbo(w1.(checked := w.checked - {m}), {} + {m.key}, m.key);
      assert {} + {m.key} - {m.key} == {};
    }
  }

  lemma ExecuteReplySound(w: World, m: PriorityId, outcome: Outcome)
    requires Sound(w, {}) && Enabled(w, ExecuteReply(m, outcome))
    ensures Sound(OnExecute(w, m, outcome), {})
  {
    var w1 := Finished(w, m);
    hide Sound;
    TakeExecute(w, {}, m);
    assert {} + {m.key} == {m.key};
    assert {m.key} - {m.key} == {};
    if m.priority == BUNDLE_MARKER || (outcome.Executed? && !IsRetryable(outcome.reason)) {
      DropLimbo(w1, {m.key}, m.key);
    } else if outcome.Unprocessed? {
      PutChecked(w1, {m.key}, m);
    } else {
      PutChecked(w1, {m.key}, m);
      PutDeferred(w1, {m.key}, m);
      var w2 := if DefersReply(w, outcome)
                then w1.(deferred := w.deferred + {m})
                else w1.(checked := w.checked + {m});
      if PendingLen(w2) > w.cfg.checkedCapacity && w2.checked != {} {
        EvictCheckedSound(w2, {});
      }
    }
  }

  lemma CheckedIsLoose(w: World, m: PriorityId)
    requires Sound(w, {}) && m in w.checked
    ensures IsMeta(w, m) && m.priority < BUNDLE_MARKER
  {
  }

  lemma BatchOfOne(txs: map<Key, Tx>, m: PriorityId)
    requires m.key in txs && m == MetaOf(m.key, txs[m.key])
    ensures KeySet([m.key]) == {m.key} && multiset([m]) == multiset{m} && BatchOf(txs, {m.key}, multiset([m]))
  {
  }

  lemma StartSingleSound(w: World, m: PriorityId)
    requires Sound(w, {}) && m in w.checked && Free(w, w.txs[m.key].locks)
    ensures Sound(Start(w, Single(m)), {})
  {
    hide Sound, BatchOf;
    CheckedIsLoose(w, m);
    var ks := {m.key};
    var w1 := w.(checked := w.checked - {m});
    BatchOfOne(w.txs, m);
    TakeChecked(w, {}, m);
    assert {} + {m.key} == ks;
    assert AllFree(w1, ks);
    hide AllFree, Free;
    PutExecuting(w1, ks, ks, multiset([m]));
    assert ks - ks == {};
  }

  lemma StartPackSound(w: World, b: BundleId)
    requires Sound(w, {}) && b in w.bundles && forall k | k in b.keys :: k in w.txs && Free(w, w.txs[k].locks)
    ensures Sound(Start(w, Pack(b)), {})
  {
    var ks := KeySet(b.keys);
    var w1 := w.(bundles := w.bundles - {b});
    BundleBatchElements(b, w.txs);
    forall k | k in ks ensures w.txs[k].priority == BUNDLE_MARKER {
      var i :| 0 <= i < |b.keys| && b.keys[i] == k;
      assert MetaOf(k, w.txs[k]) == BundleMeta(b, i);
    }
    assert BatchOf(w1.txs, ks, multiset(BundleBatch(b)));
    hide Sound;
    TakeBundle(w, {}, b);
    assert {} + ks == ks;
    assert AllFree(w1, ks);
    PutExecuting(w1, ks, ks, multiset(BundleBatch(b)));
    assert ks - ks == {};
  }

  /** Arriving transactions change nothing about what is free. */
  lemma ArrivalsAreFree(w: World, added: map<Key, Tx>)
    requires w.executing <= w.txs.Keys && added.Keys !! w.txs.Keys
    requires forall k | k in added :: Free(w, added[k].locks)
    ensures AllFree(w.(txs := w.txs + added), added.Keys)
  {
  }

  lemma TipsArriveFree(w: World, k1: Key, tx1: Tx, k2: Key, tx2: Tx)
    requires Sound(w, {}) && Enabled(w, StartTips(k1, tx1, k2, tx2))
    ensures var added := map[k1 := tx1, k2 := tx2];
      && k1 != k2 && w.txs.Keys !! added.Keys && AllFree(w.(txs := w.txs + added), added.Keys)
      && forall k | k in added :: DistinctAccounts(added[k].locks) && added[k].priority == BUNDLE_MARKER
  {
    hide Sound, DistinctAccounts;
    NewKeyIsUnknown(w, k1);
    ArrivalsAreFree(w, map[k1 := tx1, k2 := tx2]);
  }

  lemma BatchOfTwo(txs: map<Key, Tx>, k1: Key, k2: Key)
    requires k1 != k2 && k1 in txs && k2 in txs
    ensures BatchOf(txs, {k1, k2}, multiset{MetaOf(k1, txs[k1]), MetaOf(k2, txs[k2])})
  {
  }

  lemma TipsSound(w: World, k1: Key, tx1: Tx, k2: Key, tx2: Tx)
    requires Sound(w, {}) && Enabled(w, StartTips(k1, tx1, k2, tx2))
    ensures Sound(TipsStarted(w, k1, tx1, k2, tx2), {})
  {
    hide Sound, Enabled, AllFree, BatchOf, DistinctAccounts;
    TipsArriveFree(w, k1, tx1, k2, tx2);
    var ks := {k1, k2};
    var added := map[k1 := tx1, k2 := tx2];
    var w1 := w.(txs := w.txs + added);
    assert added.Keys == ks && {} + ks == ks && ks - ks == {};
    Arrive(w, {}, added);
    BatchOfTwo(w1.txs, k1, k2);
    PutExecuting(w1, ks, ks, multiset{MetaOf(k1, tx1), MetaOf(k2, tx2)});
  }

  lemma StartTipsSound(w: World, k1: Key, tx1: Tx, k2: Key, tx2: Tx)
    requires Sound(w, {}) && Enabled(w, StartTips(k1, tx1, k2, tx2))
    ensures Sound(Apply(w, StartTips(k1, tx1, k2, tx2)), {})
  {
    hide Sound, Free, DistinctAccounts;
    TipsSound(w, k1, tx1, k2, tx2);
  }

  lemma RollSound(w: World, s: Slot)
    requires Sound(w, {}) && Enabled(w, Roll(s))
    ensures Sound(Apply(w, Roll(s)), {})
  {
    var w1 := w.(slot := s, checked := w.checked + w.deferred, deferred := {});
    forall k | k in w.txs ensures Somewhere(w1, k, MetaOf(k, w.txs[k])) {
      assert Somewhere(w, k, MetaOf(k, w.txs[k]));
    }
    assert Sound(w1, {});
    CursorIsFree(w1, {}, NextSweep(w1));
  }

  lemma EventSound(w: World, e: Event)
    requires Sound(w, {}) && Enabled(w, e)
    ensures Sound(Apply(w, e), {})
  {
    hide Sound, Drop, OnCheck, OnExecute, TipsStarted, Start, NextSweep;
    match e
    case Admit(k, tx) => AdmitSound(w, k, tx);
    case EvictUnchecked => EvictUncheckedSound(w);
    case AdmitBundle(b, added) => AdmitBundleSound(w, b, added);
    case DropBundle(b) => DropBundleSound(w, b);
    case SendCheck => SendCheckSound(w);
    case SendRecheck => SendRecheckSound(w);
    case CheckReply(m, verdict) =>
      if IsFirstCheck(w, m) { FirstCheckSound(w, m, verdict); } else { RecheckSound(w, m, verdict); }
    case ExecuteReply(m, outcome) => ExecuteReplySound(w, m, outcome);
    case StartHead =>
      match Head(w.checked, w.bundles).value {
        case Single(m) => StartSingleSound(w, m);
        case Pack(b) => StartPackSound(w, b);
      }
    case StartTips(k1, tx1, k2, tx2) => StartTipsSound(w, k1, tx1, k2, tx2);
    case Roll(s) => RollSound(w, s);
    case StartSweep => CursorIsFree(w, {}, NextSweep(w));
  }
}