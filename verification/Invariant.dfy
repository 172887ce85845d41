/** The inductive invariant of the scheduler, kept by every event. */
module Invariant {
  import opened Orders
  import opened Locks
  import opened Protocol

  // Each part names only the fields it is about, so a step that leaves those alone keeps it.

  /** Every id in the container is the one the bridge's transaction has now. */
  ghost predicate Known(txs: map<Key, Tx>, s: set<PriorityId>) {
    forall m | m in s :: m.key in txs && m == MetaOf(m.key, txs[m.key]) && m.priority < BUNDLE_MARKER
  }

  ghost predicate KnownChecks(txs: map<Key, Tx>, checks: multiset<PriorityId>) {
    forall m | m in checks :: m.key in txs && m == MetaOf(m.key, txs[m.key]) && m.priority < BUNDLE_MARKER
  }

  /** Each executing key has exactly one execute message out, and nobody else has any. */
  ghost predicate OneExecuteEach(txs: map<Key, Tx>, executing: set<Key>, executes: multiset<PriorityId>) {
    && (forall m | m in executes :: m.key in executing && m.key in txs && m == MetaOf(m.key, txs[m.key]) && executes[m] == 1)
    && (forall k | k in executing :: k in txs && MetaOf(k, txs[k]) in executes)
  }

  ghost predicate LocksDistinct(txs: map<Key, Tx>) {
    forall k | k in txs :: DistinctAccounts(txs[k].locks) && txs[k].priority <= BUNDLE_MARKER
  }

  ghost predicate NotExecuting(s: set<PriorityId>, executing: set<Key>) {
    forall m | m in s :: m.key !in executing
  }

  ghost predicate NotBeingChecked(unchecked: set<PriorityId>, checks: multiset<PriorityId>) {
    forall m | m in unchecked :: m !in checks
  }

  /** A transaction only known from its check message has exactly one such message out. */
  ghost predicate FirstCheckOnce(checks: multiset<PriorityId>, executing: set<Key>, deferred: set<PriorityId>,
                                 checked: set<PriorityId>, limbo: set<Key>) {
    forall m | m in checks && m.key !in executing && m !in deferred && m !in checked && m.key !in limbo :: checks[m] == 1
  }

  ghost predicate InBundle(bundles: set<BundleId>, k: Key) {
    exists b :: b in bundles && k in b.keys
  }

  /** The container, message or bundle the key is in; never empty for a live key. */
  ghost predicate Somewhere(w: World, k: Key, m: PriorityId) {
    || m in w.unchecked || m in w.checked || m in w.deferred || m in w.checks
    || k in w.executing || InBundle(w.bundles, k)
  }

  /** No key is leaked: whatever the bridge holds is in some container or message. */
  ghost predicate Held(w: World, limbo: set<Key>) {
    forall k | k in w.txs && k !in limbo :: Somewhere(w, k, MetaOf(k, w.txs[k]))
  }

  /** Keys in the middle of an event: known to the bridge, in no container. */
  ghost predicate Nowhere(w: World, limbo: set<Key>) {
    forall k | k in limbo ::
      && k in w.txs && k !in w.executing && !InBundle(w.bundles, k)
      && MetaOf(k, w.txs[k]) !in w.unchecked && MetaOf(k, w.txs[k]) !in w.checked && MetaOf(k, w.txs[k]) !in w.deferred
  }

  ghost predicate BundlesHeld(txs: map<Key, Tx>, bundles: set<BundleId>) {
    forall b | b in bundles :: b.keys != [] && DistinctKeys(b.keys) && BundleTxs(b, txs)
  }

  ghost predicate BundlesApart(bundles: set<BundleId>, executing: set<Key>) {
    && (forall b, k | b in bundles && k in b.keys :: k !in executing)
    && (forall b, c, k | b in bundles && c in bundles && k in b.keys && k in c.keys :: b == c)
  }

  /** Conflicting executing transactions were scheduled together; a single transaction
      has no company. */
  ghost predicate MutualExclusion(txs: map<Key, Tx>, executing: set<Key>, cohort: map<Key, set<Key>>) {
    && cohort.Keys == executing
    && executing <= txs.Keys
    && (forall k | k in executing :: k in cohort[k] && (txs[k].priority < BUNDLE_MARKER ==> cohort[k] == {k}))
    && (forall j, k | j in executing && k in executing && j != k && Conflict(txs[j].locks, txs[k].locks) ::
          cohort[j] == cohort[k])
  }

  /** The invariant, except that the keys in `limbo` are between two containers. */
  ghost predicate Sound(w: World, limbo: set<Key>) {
    && LocksDistinct(w.txs)
    && Known(w.txs, w.unchecked) && Known(w.txs, w.checked) && Known(w.txs, w.deferred) && KnownChecks(w.txs, w.checks)
    && OneExecuteEach(w.txs, w.executing, w.executes)
    && w.unchecked !! w.checked && w.unchecked !! w.deferred && w.checked !! w.deferred
    && NotExecuting(w.unchecked, w.executing) && NotExecuting(w.checked, w.executing) && NotExecuting(w.deferred, w.executing)
    && NotBeingChecked(w.unchecked, w.checks)
    && FirstCheckOnce(w.checks, w.executing, w.deferred, w.checked, limbo)
    && Held(w, limbo) && Nowhere(w, limbo)
    && BundlesHeld(w.txs, w.bundles) && BundlesApart(w.bundles, w.executing)
    && MutualExclusion(w.txs, w.executing, w.cohort)
  }

  ghost predicate WithinCapacity(w: World) {
    && |w.unchecked| <= w.cfg.uncheckedCapacity
    && Load(w) <= w.cfg.checkedCapacity
    && |w.bundles| <= w.cfg.bundleCapacity
    && InFlightCus(w) <= MAX_BLOCK_UNITS
  }

  ghost predicate Inv(w: World) {
    Sound(w, {}) && WithinCapacity(w)
  }

  // ---- Facts about batches ----

  lemma {:induction false} DistinctCounts(s: seq<PriorityId>)
    requires forall i, j | 0 <= i < j < |s| :: s[i] != s[j]
    ensures forall x :: multiset(s)[x] <= 1
  {
    if s != [] {
      DistinctCounts(s[1..]);
      assert s == [s[0]] + s[1..];
      assert s[0] !in s[1..];
    }
  }

  /** The metas of a bundle's message, each once. */
  lemma BundleBatchElements(b: BundleId, txs: map<Key, Tx>)
    requires DistinctKeys(b.keys) && BundleTxs(b, txs)
    ensures forall m :: multiset(BundleBatch(b))[m] == if m.key in b.keys && m == MetaOf(m.key, txs[m.key]) then 1 else 0
  {
    var batch := BundleBatch(b);
    assert forall i | 0 <= i < |batch| :: batch[i] == BundleMeta(b, i);
    DistinctCounts(batch);
    forall m ensures multiset(batch)[m] == if m.key in b.keys && m == MetaOf(m.key, txs[m.key]) then 1 else 0 {
      if m in batch {
        var i :| 0 <= i < |batch| && batch[i] == m;
        assert b.keys[i] == m.key;
      }
      if m.key in b.keys && m == MetaOf(m.key, txs[m.key]) {
        var i :| 0 <= i < |b.keys| && b.keys[i] == m.key;
        assert batch[i] == m;
      }
    }
  }

  // ---- Removing keys, part by part ----

  lemma KnownForgets(txs: map<Key, Tx>, s: set<PriorityId>, ks: set<Key>)
    requires Known(txs, s) && ks <= txs.Keys && forall k | k in ks :: MetaOf(k, txs[k]) !in s
    ensures Known(txs - ks, s)
  {
  }

  /** The messages left once nobody is waiting for answers about `ks`. */
  ghost predicate Purged(checks: multiset<PriorityId>, ks: set<Key>, left: multiset<PriorityId>) {
    forall m :: left[m] == if m.key in ks then 0 else checks[m]
  }

  lemma ExecutesForget(txs: map<Key, Tx>, executing: set<Key>, executes: multiset<PriorityId>, ks: set<Key>)
    requires OneExecuteEach(txs, executing, executes) && ks !! executing
    ensures OneExecuteEach(txs - ks, executing, executes)
  {
  }

  lemma ExecutesShrink(txs: map<Key, Tx>, executing: set<Key>, executes: multiset<PriorityId>, m: PriorityId)
    requires OneExecuteEach(txs, executing, executes) && m in executes
    ensures OneExecuteEach(txs, executing - {m.key}, executes - multiset{m})
  {
  }

  lemma BundlesForget(txs: map<Key, Tx>, bundles: set<BundleId>, ks: set<Key>)
    requires BundlesHeld(txs, bundles) && forall k | k in ks :: !InBundle(bundles, k)
    ensures BundlesHeld(txs - ks, bundles)
  {
    forall b, k | b in bundles && k in b.keys ensures k !in ks {
      assert InBundle(bundles, k);
    }
  }

  lemma ExclusionForgets(txs: map<Key, Tx>, executing: set<Key>, cohort: map<Key, set<Key>>, ks: set<Key>)
    requires MutualExclusion(txs, executing, cohort) && ks !! executing
    ensures MutualExclusion(txs - ks, executing, cohort)
  {
  }

  lemma ExclusionShrinks(txs: map<Key, Tx>, executing: set<Key>, cohort: map<Key, set<Key>>, k: Key)
    requires MutualExclusion(txs, executing, cohort)
    ensures MutualExclusion(txs, executing - {k}, cohort - {k})
  {
  }

  lemma HeldForgets(w: World, limbo: set<Key>, ks: set<Key>, left: multiset<PriorityId>)
    requires Held(w, limbo) && ks <= limbo && Purged(w.checks, ks, left)
    ensures Held(w.(txs := w.txs - ks, checks := left), limbo - ks)
  {
    var w' := w.(txs := w.txs - ks, checks := left);
    forall k | k in w'.txs && k !in limbo - ks ensures Somewhere(w', k, MetaOf(k, w'.txs[k])) {
      assert Somewhere(w, k, MetaOf(k, w.txs[k]));
    }
  }

  /** The bridge forgets keys that are in no container. */
  lemma Forget(w: World, limbo: set<Key>, ks: set<Key>, left: multiset<PriorityId>)
    requires Sound(w, limbo) && ks <= limbo && Purged(w.checks, ks, left)
    ensures Sound(w.(txs := w.txs - ks, checks := left), limbo - ks)
  {
    KnownForgets(w.txs, w.unchecked, ks);
    KnownForgets(w.txs, w.checked, ks);
    KnownForgets(w.txs, w.deferred, ks);
    ExecutesForget(w.txs, w.executing, w.executes, ks);
    BundlesForget(w.txs, w.bundles, ks);
    ExclusionForgets(w.txs, w.executing, w.cohort, ks);
    HeldForgets(w, limbo, ks, left);
  }

  lemma DropLimbo(w: World, limbo: set<Key>, k: Key)
    requires Sound(w, limbo) && k in limbo
    ensures Sound(Drop(w, k), limbo - {k})
  {
    Forget(w, limbo, {k}, w.checks[Meta(w, k) := 0]);
  }

  // ---- Moves between containers ----

  lemma TakeChecked(w: World, limbo: set<Key>, m: PriorityId)
    requires Sound(w, limbo) && m in w.checked
    ensures Sound(w.(checked := w.checked - {m}), limbo + {m.key})
  {
  }

  lemma TakeUnchecked(w: World, limbo: set<Key>, m: PriorityId)
    requires Sound(w, limbo) && m in w.unchecked
    ensures Sound(w.(unchecked := w.unchecked - {m}), limbo + {m.key})
  {
  }

  lemma BundledIsMarked(txs: map<Key, Tx>, bundles: set<BundleId>, k: Key)
    requires BundlesHeld(txs, bundles) && InBundle(bundles, k)
    ensures k in txs && txs[k].priority == BUNDLE_MARKER
  {
    var b :| b in bundles && k in b.keys;
    var i :| 0 <= i < |b.keys| && b.keys[i] == k;
    assert MetaOf(b.keys[i], txs[b.keys[i]]) == BundleMeta(b, i);
  }

  lemma FirstCheckTaken(w: World, limbo: set<Key>, m: PriorityId)
    requires Sound(w, limbo) && m in w.checks && IsFirstCheck(w, m) && m.key !in limbo
    ensures w.checks[m] == 1 && IsMeta(w, m) && !InBundle(w.bundles, m.key) && m !in w.unchecked
    ensures FirstCheckOnce(w.checks - multiset{m}, w.executing, w.deferred, w.checked, limbo + {m.key})
  {
    assert w.checks[m] == 1;
    if InBundle(w.bundles, m.key) {
      BundledIsMarked(w.txs, w.bundles, m.key);
    }
  }

  lemma FirstCheckHolds(w: World, limbo: set<Key>, m: PriorityId)
    requires Held(w, limbo) && KnownChecks(w.txs, w.checks) && w.checks[m] == 1
    ensures Held(w.(checks := w.checks - multiset{m}), limbo + {m.key})
  {
    forall k | k in w.txs && k !in limbo + {m.key} ensures Somewhere(w.(checks := w.checks - multiset{m}), k, MetaOf(k, w.txs[k])) {
      assert Somewhere(w, k, MetaOf(k, w.txs[k]));
    }
  }

  /** The answer to a first check leaves its transaction nowhere. */
  lemma TakeFirstCheck(w: World, limbo: set<Key>, m: PriorityId)
    requires Sound(w, limbo) && m in w.checks && IsFirstCheck(w, m) && m.key !in limbo
    ensures Sound(w.(checks := w.checks - multiset{m}), limbo + {m.key})
    ensures m !in w.checks - multiset{m}
  {
    hide Held, FirstCheckOnce, InBundle, LocksDistinct, OneExecuteEach, BundlesHeld, BundlesApart, MutualExclusion;
    FirstCheckTaken(w, limbo, m);
    FirstCheckHolds(w, limbo, m);
  }

  /** The answer to a recheck leaves everything where it is. */
  lemma TakeRecheck(w: World, limbo: set<Key>, m: PriorityId)
    requires Sound(w, limbo) && m in w.checks && !IsFirstCheck(w, m)
    ensures Sound(w.(checks := w.checks - multiset{m}), limbo)
  {
    forall k | k in w.txs && k !in limbo
      ensures Somewhere(w.(checks := w.checks - multiset{m}), k, MetaOf(k, w.txs[k]))
    {
      assert Somewhere(w, k, MetaOf(k, w.txs[k]));
    }
  }

  lemma TakeExecute(w: World, limbo: set<Key>, m: PriorityId)
    requires Sound(w, limbo) && m in w.executes
    ensures Sound(Finished(w, m), limbo + {m.key})
  {
    ExecutesShrink(w.txs, w.executing, w.executes, m);
    ExclusionShrinks(w.txs, w.executing, w.cohort, m.key);
  }

  lemma PutChecked(w: World, limbo: set<Key>, m: PriorityId)
    requires Sound(w, limbo) && IsMeta(w, m) && m.key in limbo && m.priority != BUNDLE_MARKER
    ensures Sound(w.(checked := w.checked + {m}), limbo - {m.key})
  {
  }

  lemma PutDeferred(w: World, limbo: set<Key>, m: PriorityId)
    requires Sound(w, limbo) && IsMeta(w, m) && m.key in limbo && m.priority != BUNDLE_MARKER
    ensures Sound(w.(deferred := w.deferred + {m}), limbo - {m.key})
  {
  }

  lemma PutUnchecked(w: World, limbo: set<Key>, m: PriorityId)
    requires Sound(w, limbo) && IsMeta(w, m) && m.key in limbo && m.priority != BUNDLE_MARKER
    requires m !in w.checks
    ensures Sound(w.(unchecked := w.unchecked + {m}), limbo - {m.key})
  {
  }

  /** A first check: its transaction is in no container and has no check out. */
  lemma PutFirstCheck(w: World, limbo: set<Key>, m: PriorityId)
    requires Sound(w, limbo) && IsMeta(w, m) && m.key in limbo && m.priority != BUNDLE_MARKER
    requires m !in w.checks
    ensures Sound(w.(checks := w.checks + multiset{m}), limbo - {m.key})
  {
  }

  /** A recheck: its transaction stays checked, however many checks are out. */
  lemma PutRecheck(w: World, limbo: set<Key>, m: PriorityId)
    requires Sound(w, limbo) && m in w.checked
    ensures Sound(w.(checks := w.checks + multiset{m}), limbo)
  {
  }

  lemma ExecutesArrive(txs: map<Key, Tx>, added: map<Key, Tx>, executing: set<Key>, executes: multiset<PriorityId>)
    requires OneExecuteEach(txs, executing, executes) && txs.Keys !! added.Keys
    ensures OneExecuteEach(txs + added, executing, executes)
  {
  }

  lemma BundlesArrive(txs: map<Key, Tx>, added: map<Key, Tx>, bundles: set<BundleId>)
    requires BundlesHeld(txs, bundles) && txs.Keys !! added.Keys
    ensures BundlesHeld(txs + added, bundles)
    ensures forall k | k in added :: !InBundle(bundles, k)
  {
    forall b, k | b in bundles && k in b.keys ensures k in txs {
      var i :| 0 <= i < |b.keys| && b.keys[i] == k;
    }
  }

  lemma ExclusionArrives(txs: map<Key, Tx>, added: map<Key, Tx>, executing: set<Key>, cohort: map<Key, set<Key>>)
    requires MutualExclusion(txs, executing, cohort) && txs.Keys !! added.Keys
    ensures MutualExclusion(txs + added, executing, cohort)
  {
  }

  lemma KnownArrives(txs: map<Key, Tx>, added: map<Key, Tx>, s: set<PriorityId>)
    requires Known(txs, s) && txs.Keys !! added.Keys
    ensures Known(txs + added, s) && forall m | m in s :: m.key !in added
  {
  }

  lemma HeldArrives(w: World, limbo: set<Key>, added: map<Key, Tx>)
    requires Held(w, limbo) && w.txs.Keys !! added.Keys
    ensures Held(w.(txs := w.txs + added), limbo + added.Keys)
  {
    forall k | k in w.txs && k !in limbo ensures Somewhere(w.(txs := w.txs + added), k, MetaOf(k, w.txs[k])) {
      assert Somewhere(w, k, MetaOf(k, w.txs[k]));
    }
  }

  lemma NowhereYet(w: World, limbo: set<Key>, added: map<Key, Tx>)
    requires Sound(w, limbo) && w.txs.Keys !! added.Keys
    requires forall k | k in added :: !InBundle(w.bundles, k)
    requires forall m | m in w.unchecked || m in w.checked || m in w.deferred :: m.key !in added
    ensures Nowhere(w.(txs := w.txs + added), limbo + added.Keys)
  {
    assert Nowhere(w, limbo) && w.executing <= w.txs.Keys;
    hide Sound, InBundle;
  }

  lemma Arrive(w: World, limbo: set<Key>, added: map<Key, Tx>)
    requires Sound(w, limbo) && w.txs.Keys !! added.Keys
    requires forall k | k in added :: DistinctAccounts(added[k].locks) && added[k].priority <= BUNDLE_MARKER
    ensures Sound(w.(txs := w.txs + added), limbo + added.Keys)
  {
    hide Held, Nowhere, InBundle, Known, OneExecuteEach, BundlesHeld, BundlesApart, MutualExclusion, DistinctAccounts;
    KnownArrives(w.txs, added, w.unchecked);
    KnownArrives(w.txs, added, w.checked);
    KnownArrives(w.txs, added, w.deferred);
    ExecutesArrive(w.txs, added, w.executing, w.executes);
    BundlesArrive(w.txs, added, w.bundles);
    ExclusionArrives(w.txs, added, w.executing, w.cohort);
    HeldArrives(w, limbo, added);
    NowhereYet(w, limbo, added);
  }

  lemma BundlesGrow(txs: map<Key, Tx>, bundles: set<BundleId>, executing: set<Key>, b: BundleId)
    requires BundlesHeld(txs, bundles) && BundlesApart(bundles, executing)
    requires b.keys != [] && DistinctKeys(b.keys) && BundleTxs(b, txs)
    requires forall k | k in b.keys :: k !in executing && !InBundle(bundles, k)
    ensures BundlesHeld(txs, bundles + {b}) && BundlesApart(bundles + {b}, executing)
    ensures forall k :: InBundle(bundles + {b}, k) <==> InBundle(bundles, k) || k in b.keys
  {
    forall k ensures InBundle(bundles + {b}, k) <==> InBundle(bundles, k) || k in b.keys {
      assert b in bundles + {b};
    }
    forall c, k | c in bundles && k in c.keys ensures k !in b.keys {
      assert InBundle(bundles, k);
    }
  }

  lemma PutBundle(w: World, limbo: set<Key>, b: BundleId)
    requires Sound(w, limbo) && b.keys != [] && DistinctKeys(b.keys) && BundleTxs(b, w.txs)
    requires KeySet(b.keys) <= limbo
    ensures Sound(w.(bundles := w.bundles + {b}), limbo - KeySet(b.keys))
  {
    forall k | k in b.keys ensures k in limbo {
      assert k in KeySet(b.keys);
    }
    BundlesGrow(w.txs, w.bundles, w.executing, b);
  }

  lemma TakeBundle(w: World, limbo: set<Key>, b: BundleId)
    requires Sound(w, limbo) && b in w.bundles
    ensures Sound(w.(bundles := w.bundles - {b}), limbo + KeySet(b.keys))
  {
    var w' := w.(bundles := w.bundles - {b});
    forall k ensures InBundle(w.bundles, k) <==> InBundle(w'.bundles, k) || k in b.keys {
      if InBundle(w.bundles, k) {
        var c :| c in w.bundles && k in c.keys;
        assert c == b || c in w'.bundles;
      }
    }
    forall k | k in b.keys ensures !InBundle(w'.bundles, k) && k in w.txs {
      var i :| 0 <= i < |b.keys| && b.keys[i] == k;
    }
    forall k | k in KeySet(b.keys) ensures MetaOf(k, w.txs[k]).priority == BUNDLE_MARKER {
      var i :| 0 <= i < |b.keys| && b.keys[i] == k;
    }
  }

  /** The execute messages a batch adds: one for each of its keys. */
  ghost predicate BatchOf(txs: map<Key, Tx>, ks: set<Key>, batch: multiset<PriorityId>) {
    && ks <= txs.Keys
    && forall m :: batch[m] == if m.key in ks && m == MetaOf(m.key, txs[m.key]) then 1 else 0
  }

  lemma ExecutesGrow(txs: map<Key, Tx>, executing: set<Key>, executes: multiset<PriorityId>, ks: set<Key>, batch: multiset<PriorityId>)
    requires OneExecuteEach(txs, executing, executes) && ks !! executing
    requires BatchOf(txs, ks, batch)
    ensures OneExecuteEach(txs, executing + ks, executes + batch)
  {
    forall k | k in ks ensures MetaOf(k, txs[k]) in batch {
      assert batch[MetaOf(k, txs[k])] == 1;
    }
  }

  /** No key of the batch conflicts with an executing transaction. */
  ghost predicate AllFree(w: World, ks: set<Key>) {
    forall k | k in ks :: k in w.txs && Free(w, w.txs[k].locks)
  }

  lemma ExclusionGrows(w: World, ks: set<Key>)
    requires MutualExclusion(w.txs, w.executing, w.cohort) && ks !! w.executing && AllFree(w, ks)
    requires forall k | k in ks && w.txs[k].priority < BUNDLE_MARKER :: ks == {k}
    ensures MutualExclusion(w.txs, w.executing + ks, w.cohort + Together(ks))
  {
    forall j, k | j in w.executing && k in ks
      ensures !Conflict(w.txs[j].locks, w.txs[k].locks) && !Conflict(w.txs[k].locks, w.txs[j].locks)
    {
      assert Free(w, w.txs[k].locks);
      assert forall a :: ClashOn(w.txs[j].locks, w.txs[k].locks, a) ==> ClashOn(w.txs[k].locks, w.txs[j].locks, a);
    }
  }

  lemma LimboIsApart(w: World, limbo: set<Key>)
    requires Sound(w, limbo)
    ensures forall m | m in w.unchecked :: m.key !in limbo
    ensures forall m | m in w.checked :: m.key !in limbo
    ensures forall m | m in w.deferred :: m.key !in limbo
    ensures forall b, k | b in w.bundles && k in b.keys :: k !in limbo
  {
    forall b, k | b in w.bundles && k in b.keys ensures k !in limbo {
      assert InBundle(w.bundles, k);
    }
  }

  /** The keys of one batch start executing. */
  lemma PutExecuting(w: World, limbo: set<Key>, ks: set<Key>, batch: multiset<PriorityId>)
    requires Sound(w, limbo) && ks <= limbo && BatchOf(w.txs, ks, batch)
    requires AllFree(w, ks)
    requires forall k | k in ks && w.txs[k].priority < BUNDLE_MARKER :: ks == {k}
    ensures Sound(w.(executing := w.executing + ks, executes := w.executes + batch,
                     cohort := w.cohort + Together(ks)), limbo - ks)
  {
    LimboIsApart(w, limbo);
    ExecutesGrow(w.txs, w.executing, w.executes, ks, batch);
    ExclusionGrows(w, ks);
  }
}