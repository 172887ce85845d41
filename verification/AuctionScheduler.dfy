/** The auction scheduler object: its containers, its lock manager, and what it schedules. */
module AuctionBatchScheduler {
  import opened Orders
  import opened Locks
  import opened Protocol
  import opened Capacity
  import opened Ingest
  import opened Responses
  import opened Schedule
  import opened Tips
  import opened QueueDepths
  import opened Sequences
  import opened LockManagers
  import opened Auction
  import opened AuctionRecheck
  import opened Theorems

  class Scheduler {
    const blockFillCutoff: nat
    const checkedCapacity: nat
    const bundleCapacity: nat
    const manager: LockManager

    var txs: map<Key, Tx>
    var checkedTx: set<PriorityId>
    var deferredTx: set<PriorityId>
    var bundles: set<BundleId>
    var executingTx: set<Key>
    var inFlightCus: nat
    var scheduleBatch: seq<PriorityId>
    var nextRecheck: Option<PriorityId>
    var slot: Slot

    /** The execute messages that are out. */
    ghost var executes: multiset<PriorityId>

    /** The executing keys that hold locks, and those that were declined them. */
    ghost var holders: set<Key>
    ghost var declined: set<Key>

    ghost predicate Locked()
      reads `txs, `executingTx, `holders, `declined, manager`accountLocks
    {
      && Indexed(manager.accountLocks, holders, txs)
      && executingTx == holders + declined && holders !! declined && executingTx <= txs.Keys
    }

    /** What waits as a single transaction. */
    ghost function Loose(): set<PriorityId>
      reads `checkedTx, `deferredTx
    {
      checkedTx + deferredTx
    }

    ghost predicate Queues()
      reads `txs, `checkedTx, `deferredTx, `bundles, `executingTx
    {
      Waiting(txs, Loose(), bundles, executingTx) && checkedTx !! deferredTx
    }

    ghost predicate Counted()
      reads `executes, `executingTx, `inFlightCus
    {
      Outstanding(executes, executingTx) && inFlightCus == SumCost(executes)
    }

    /** What scheduling looks at and changes. */
    ghost function At(budget: nat): Desk
      reads `checkedTx, `bundles, `holders, `executingTx, `executes
    {
      Desk(checkedTx, bundles, holders, executingTx, executes, budget)
    }

    ghost predicate Valid()
      reads `txs, `checkedTx, `deferredTx, `bundles, `executingTx, `inFlightCus, `executes, `holders, `declined, manager
    {
      Locked() && Queues() && Counted() && Remembered(manager.queueDepths)
    }

    constructor (blockFillCutoff: nat, checkedCapacity: nat, bundleCapacity: nat)
      ensures Valid() && fresh(manager) && checkedTx == {} && deferredTx == {} && bundles == {} && executingTx == {}
      ensures txs == map[] && nextRecheck == None && inFlightCus == 0 && executes == multiset{} && declined == {}
      ensures manager.queueDepths == map[] && manager.accountLocks == map[]
      ensures this.checkedCapacity == checkedCapacity && this.bundleCapacity == bundleCapacity
      ensures this.blockFillCutoff == blockFillCutoff
    {
      this.blockFillCutoff, this.checkedCapacity, this.bundleCapacity := blockFillCutoff, checkedCapacity, bundleCapacity;
      manager := new LockManager();
      txs, checkedTx, deferredTx, bundles, executingTx := map[], {}, {}, {}, {};
      inFlightCus, scheduleBatch, nextRecheck, slot := 0, [], None, 0;
      executes, holders, declined := multiset{}, {}, {};
    }

    /** Only a transaction that was declined its locks can be in conflict with another
        executing one. */
    lemma OnlyTheDeclinedConflict(j: Key, k: Key)
      requires Locked() && j in executingTx && k in executingTx && j != k
      requires Conflict(txs[j].locks, txs[k].locks)
      ensures j in declined || k in declined
    {
    }

    // ---- Locks ----

    /** True exactly when the transaction conflicts with no holder. */
    method CanLock(key: Key) returns (ok: bool)
      requires Indexed(manager.accountLocks, holders, txs)
      requires key in txs && key !in holders && DistinctAccounts(txs[key].locks)
      ensures ok <==> FreeOf(holders, txs, key)
    {
      hide Indexed, FreeOf, DistinctAccounts;
      ok := manager.TryAcquire(txs[key].locks);
      IndexedFacts(manager.accountLocks, holders, txs, key);
    }

    /** Takes the locks if they are free; otherwise declines and says nothing. */
    method LockIfFree(key: Key) returns (granted: bool)
      requires Indexed(manager.accountLocks, holders, txs)
      requires key in txs && key !in holders && DistinctAccounts(txs[key].locks)
      modifies manager`accountLocks, `holders
      ensures granted <==> FreeOf(old(holders), txs, key)
      ensures holders == if granted then old(holders) + {key} else old(holders)
      ensures Indexed(manager.accountLocks, holders, txs)
      ensures !granted ==> manager.accountLocks == old(manager.accountLocks)
    {
      hide Indexed, FreeOf, DistinctAccounts;
      IndexedFacts(manager.accountLocks, holders, txs, key);
      AcquireIndexed(manager.accountLocks, holders, txs, key);
      granted := manager.AcquireLocks(key, txs[key].locks);
      if granted {
        holders := holders + {key};
      }
    }

    method Unlock(key: Key)
      requires Indexed(manager.accountLocks, holders, txs)
      requires key in txs && DistinctAccounts(txs[key].locks)
      modifies manager`accountLocks, `holders
      ensures holders == old(holders) - {key} && Indexed(manager.accountLocks, holders, txs)
    {
      hide Indexed, DistinctAccounts;
      ReleaseIndexed(manager.accountLocks, holders, txs, key);
      manager.Release(key, txs[key].locks);
      holders := holders - {key};
    }

    // ---- The bridge ----

    /** The bridge holds one more transaction. */
    method Insert(key: Key, tx: Tx)
      requires Valid() && key !in txs && DistinctAccounts(tx.locks)
      modifies `txs
      ensures Valid() && txs == old(txs)[key := tx]
    {
      hide Indexed, Waiting, Outstanding, SumCost, DistinctAccounts;
      IndexedFrame(manager.accountLocks, holders, txs, txs[key := tx]);
      ArrivalWaits(txs, Loose(), bundles, executingTx, key, tx);
      txs := txs[key := tx];
    }

    /** The bridge drops a transaction that is nowhere. */
    method Drop(key: Key)
      requires Valid() && Unplaced(key, Loose(), bundles, executingTx)
      modifies `txs
      ensures Valid() && txs == old(txs) - {key}
    {
      hide Indexed, Waiting, Outstanding, SumCost;
      assert key !in executingTx;
      IndexedFrame(manager.accountLocks, holders, txs, txs - {key});
      ForgottenWaits(txs, Loose(), bundles, executingTx, key);
      txs := txs - {key};
    }

    // ---- The checked transactions ----

    /** A transaction that is nowhere joins the checked ones, and the queues of its accounts. */
    method InsertChecked(meta: PriorityId)
      requires Valid() && meta.key in txs && Unplaced(meta.key, Loose(), bundles, executingTx)
      modifies `checkedTx, manager`queueDepths
      ensures Valid() && checkedTx == old(checkedTx) + {meta} && meta !in old(checkedTx)
      ensures manager.queueDepths == Queued(old(manager.queueDepths), txs[meta.key].locks)
    {
      hide Indexed, Waiting, Unplaced, Outstanding, SumCost;
      CheckedWaits(txs, Loose(), bundles, executingTx, meta);
      manager.QueueTransaction(txs[meta.key].locks);
      assert Loose() + {meta} == (checkedTx + {meta}) + deferredTx;
      checkedTx := checkedTx + {meta};
    }

    /** Takes a transaction out of the checked ones if it is there, and out of the queues. */
    method RemoveChecked(meta: PriorityId) returns (removed: bool)
      requires meta in checkedTx ==> meta.key in txs
      requires Remembered(manager.queueDepths)
      modifies `checkedTx, manager`queueDepths
      ensures removed <==> meta in old(checkedTx)
      ensures checkedTx == old(checkedTx) - {meta} && Remembered(manager.queueDepths)
      ensures removed ==> manager.queueDepths == Dequeued(old(manager.queueDepths), txs[meta.key].locks)
      ensures removed ==> forall d | Remembered(d) && old(manager.queueDepths) == Queued(d, txs[meta.key].locks) :: manager.queueDepths == d
      ensures !removed ==> manager.queueDepths == old(manager.queueDepths)
    {
      removed := meta in checkedTx;
      if removed {
        checkedTx := checkedTx - {meta};
        manager.DequeueTransaction(txs[meta.key].locks);
      }
    }

    /** The lowest checked transaction goes. */
    method EvictLowestChecked()
      requires Valid() && checkedTx != {}
      modifies `checkedTx, `txs, manager`queueDepths
      ensures Valid() && checkedTx == old(checkedTx) - {First(old(checkedTx))}
      ensures txs == old(txs) - {First(old(checkedTx)).key}
      ensures LosesLowest(old(checkedTx), old(txs), checkedTx, txs)
    {
      hide Indexed, Waiting, Unplaced, Outstanding, SumCost, First;
      var id := PeekFirst(checkedTx);
      FirstIsIn(checkedTx);
      TakenWaits(txs, Loose(), bundles, executingTx, id);
      assert Loose() - {id} == (checkedTx - {id}) + deferredTx;
      LowestIsFirst(checkedTx, txs);
      var removed := RemoveChecked(id);
      Drop(id.key);
    }

    /** A transaction that is nowhere is not the one that goes. */
    lemma OthersStayApart(meta: PriorityId)
      requires meta.key in txs && Unplaced(meta.key, Loose(), bundles, executingTx) && checkedTx != {}
      ensures First(checkedTx).key != meta.key && meta !in checkedTx && First(checkedTx) in checkedTx
      ensures Unplaced(meta.key, (checkedTx - {First(checkedTx)}) + deferredTx, bundles, executingTx)
    {
      FirstIsIn(checkedTx);
    }

    /** A transaction that passed its first check. A full checked side gives up its lowest
        transaction; it fails when it has none. */
    method InsertFirstChecked(meta: PriorityId) returns (ok: bool)
      requires Valid() && meta.key in txs && Unplaced(meta.key, Loose(), bundles, executingTx)
      modifies `checkedTx, `txs, manager`queueDepths
      ensures var full := |old(checkedTx)| + |old(executingTx)| + |old(deferredTx)| >= checkedCapacity;
        && (ok <==> (full ==> old(checkedTx) != {}))
        && (ok ==>
          && Valid()
          && checkedTx == (if full then old(checkedTx) - {First(old(checkedTx))} else old(checkedTx)) + {meta}
          && txs == if full then old(txs) - {First(old(checkedTx)).key} else old(txs))
        && (ok && full ==> LosesLowest(old(checkedTx), old(txs), checkedTx - {meta}, txs))
    {
      hide Valid, Unplaced, First, LosesLowest;
      if |checkedTx| + |executingTx| + |deferredTx| >= checkedCapacity {
        if checkedTx == {} {
          return false;  // the unwrap of the evicted transaction
        }
        OthersStayApart(meta);
        EvictLowestChecked();
      }
      InsertChecked(meta);
      assert meta !in old(checkedTx) && checkedTx - {meta} <= old(checkedTx);
      ok := true;
    }

    // ---- Bundles ----

    /** Queues the members' locks, one member after the other. */
    method QueueBundle(keys: seq<Key>)
      requires Remembered(manager.queueDepths) && forall k | k in keys :: k in txs
      modifies manager`queueDepths
      ensures manager.queueDepths == Queued(old(manager.queueDepths), LocksOf(keys, txs)) && Remembered(manager.queueDepths)
    {
      var i := 0;
      while i < |keys|
        invariant 0 <= i <= |keys| && Remembered(manager.queueDepths)
        invariant manager.queueDepths == Queued(old(manager.queueDepths), LocksOf(keys[..i], txs))
      {
        QueueNext(old(manager.queueDepths), keys, txs, i);
        manager.QueueTransaction(txs[keys[i]].locks);
        i := i + 1;
      }
      assert keys[..|keys|] == keys;
    }

    method DequeueBundle(keys: seq<Key>)
      requires Remembered(manager.queueDepths) && forall k | k in keys :: k in txs
      modifies manager`queueDepths
      ensures manager.queueDepths == Dequeued(old(manager.queueDepths), LocksOf(keys, txs)) && Remembered(manager.queueDepths)
    {
      var i := 0;
      while i < |keys|
        invariant 0 <= i <= |keys| && Remembered(manager.queueDepths)
        invariant manager.queueDepths == Dequeued(old(manager.queueDepths), LocksOf(keys[..i], txs))
      {
        QueueNext(old(manager.queueDepths), keys, txs, i);
        manager.DequeueTransaction(txs[keys[i]].locks);
        i := i + 1;
      }
      assert keys[..|keys|] == keys;
    }

    /** Drops a waiting bundle with all its transactions. */
    method EvictBundle(b: BundleId)
      requires Valid() && b in bundles
      modifies `bundles, `txs, manager`queueDepths
      ensures Valid() && bundles == old(bundles) - {b} && txs == old(txs) - KeySet(b.keys)
      ensures manager.queueDepths == Dequeued(old(manager.queueDepths), LocksOf(b.keys, old(txs)))
    {
      hide Indexed, Waiting, Unplaced, Outstanding, SumCost;
      TakenBundleWaits(txs, Loose(), bundles, executingTx, b);
      DequeueBundle(b.keys);
      bundles := bundles - {b};
      DropKeys(b.keys);
    }

    method DropKeys(keys: seq<Key>)
      requires Valid() && DistinctKeys(keys) && forall k | k in keys :: Unplaced(k, Loose(), bundles, executingTx)
      modifies `txs
      ensures Valid() && txs == old(txs) - KeySet(keys)
    {
      hide Valid, Unplaced;
      var i := 0;
      while i < |keys|
        invariant 0 <= i <= |keys| && Valid() && txs == old(txs) - KeySet(keys[..i])
      {
        NextKey(keys, i);
        Drop(keys[i]);
        i := i + 1;
      }
      assert keys[..|keys|] == keys;
    }

    /** A bundle whose transactions the bridge holds already. A full container gives up its
        lowest bundle; it fails when it has none. */
    method InsertBundle(b: BundleId) returns (ok: bool)
      requires Valid() && b.keys != [] && DistinctKeys(b.keys)
      requires forall k | k in b.keys :: k in txs && Unplaced(k, Loose(), bundles, executingTx)
      modifies `bundles, `txs, manager`queueDepths
      ensures var full := |old(bundles)| == bundleCapacity;
        && (ok <==> (full ==> old(bundles) != {}))
        && (ok ==>
          && Valid()
          && bundles == (if full then old(bundles) - {FirstBundle(old(bundles))} else old(bundles)) + {b}
          && txs == (if full then old(txs) - KeySet(FirstBundle(old(bundles)).keys) else old(txs))
          && (full ==> LosesLowestBundle(old(bundles), bundles - {b}, txs))
          && manager.queueDepths == Queued(
               if full then Dequeued(old(manager.queueDepths), LocksOf(FirstBundle(old(bundles)).keys, old(txs)))
               else old(manager.queueDepths), LocksOf(b.keys, txs)))
    {
      hide Valid, Unplaced, FirstBundle, DistinctKeys, LosesLowestBundle;
      if |bundles| == bundleCapacity {
        if bundles == {} {
          return false;  // the unwrap of the evicted bundle
        }
        var evicted := PeekFirstBundle(bundles);
        FirstBundleIsIn(bundles);
        OthersStayPlaced(b, evicted);
        LowestBundleGoes(bundles, txs);
        EvictBundle(evicted);
      }
      ghost var rest := bundles;
      AddBundle(b);
      assert bundles - {b} == rest;
      ok := true;
    }

    /** A bundle that is nowhere is not part of one that waits. */
    lemma OthersStayPlaced(b: BundleId, evicted: BundleId)
      requires evicted in bundles && forall k | k in b.keys :: k in txs && Unplaced(k, Loose(), bundles, executingTx)
      ensures forall k | k in b.keys ::
        k in txs - KeySet(evicted.keys) && Unplaced(k, Loose(), bundles - {evicted}, executingTx)
    {
    }

    method AddBundle(b: BundleId)
      requires Valid() && b.keys != [] && DistinctKeys(b.keys)
      requires forall k | k in b.keys :: k in txs && Unplaced(k, Loose(), bundles, executingTx)
      modifies `bundles, manager`queueDepths
      ensures Valid() && bundles == old(bundles) + {b} && b !in old(bundles)
      ensures manager.queueDepths == Queued(old(manager.queueDepths), LocksOf(b.keys, txs))
    {
      hide Indexed, Waiting, Unplaced, Outstanding, SumCost, DistinctKeys;
      QueueBundle(b.keys);
      assert b !in bundles by {
        assert b.keys[0] in b.keys && Unplaced(b.keys[0], Loose(), bundles, executingTx);
        NotInOne(b, Loose(), bundles, executingTx);
      }
      BundleWaits(txs, Loose(), bundles, executingTx, b);
      bundles := bundles + {b};
    }

    // ---- Answers to execute messages ----

    /** The executing mark, the units and the locks of the transaction go, if it has any. */
    method Finish(meta: PriorityId)
      requires Valid() && meta in executes
      modifies `executingTx, `inFlightCus, `executes, `holders, `declined, manager`accountLocks
      ensures Valid() && meta.key in old(executingTx) && meta.key in txs
      ensures executingTx == old(executingTx) - {meta.key} && executes == old(executes) - multiset{meta}
      ensures holders == old(holders) - {meta.key} && declined == old(declined) - {meta.key}
      ensures inFlightCus + meta.cost == old(inFlightCus)
      ensures Unplaced(meta.key, Loose(), bundles, executingTx)
    {
      hide Indexed, Waiting, Unplaced, Outstanding, Counted, DistinctAccounts;
      AnsweredIsCounted(meta);
      assert meta.key in executingTx;  // the removal's assert
      FinishedWaits(txs, Loose(), bundles, executingTx, meta.key);
      assert inFlightCus >= meta.cost;  // the subtraction does not underflow
      Unlock(meta.key);
      Uncount(meta);
      declined := declined - {meta.key};
    }

    lemma AnsweredIsCounted(meta: PriorityId)
      requires Valid() && meta in executes
      ensures meta.key in executingTx && meta.key in txs && DistinctAccounts(txs[meta.key].locks) && inFlightCus >= meta.cost
    {
      hide Indexed, Waiting, Outstanding, SumCost, DistinctAccounts;
      AnsweredExecutes(txs, Loose(), bundles, executingTx, executes, meta);
      SumCostRemove(executes, meta);
    }

    method Uncount(meta: PriorityId)
      requires Counted() && meta in executes && inFlightCus >= meta.cost
      modifies `executingTx, `inFlightCus, `executes
      ensures Counted() && executingTx == old(executingTx) - {meta.key} && executes == old(executes) - multiset{meta}
      ensures inFlightCus + meta.cost == old(inFlightCus)
    {
      hide Outstanding, SumCost;
      OutstandingShrinks(executes, executingTx, meta);
      SumCostRemove(executes, meta);
      executingTx := executingTx - {meta.key};
      inFlightCus := inFlightCus - meta.cost;
      executes := executes - multiset{meta};
    }

    /** An execute request that no worker ran. */
    method OnUnprocessed(meta: PriorityId)
      requires Valid() && meta in executes
      modifies `executingTx, `inFlightCus, `executes, `holders, `declined, `checkedTx, `txs, manager
      ensures Valid() && executingTx == old(executingTx) - {meta.key} && executes == old(executes) - multiset{meta}
      ensures holders == old(holders) - {meta.key} && declined == old(declined) - {meta.key}
      ensures inFlightCus + meta.cost == old(inFlightCus)
      ensures meta.priority == BUNDLE_MARKER ==> txs == old(txs) - {meta.key} && checkedTx == old(checkedTx)
      ensures meta.priority != BUNDLE_MARKER ==> txs == old(txs) && checkedTx == old(checkedTx) + {meta}
      ensures meta.priority == 0xFFFF_FFFF_FFFF_FFFF ==> txs == old(txs) - {meta.key}
    {
      hide Valid, Unplaced;
      Finish(meta);
      if meta.priority == BUNDLE_MARKER {
        Drop(meta.key);
      } else {
        InsertChecked(meta);
      }
    }

    /** A transaction that was tried waits for the next slot. */
    method Defer(meta: PriorityId)
      requires Valid() && meta.key in txs && Unplaced(meta.key, Loose(), bundles, executingTx)
      modifies `deferredTx
      ensures Valid() && deferredTx == old(deferredTx) + {meta} && meta !in old(deferredTx)
    {
      hide Indexed, Waiting, Unplaced, Outstanding, SumCost;
      CheckedWaits(txs, Loose(), bundles, executingTx, meta);
      assert Loose() + {meta} == checkedTx + (deferredTx + {meta});
      assert meta !in deferredTx;  // the insertion's assert
      deferredTx := deferredTx + {meta};
    }

    /** The answer to an execute request: dropped, checked again, or deferred, then evicting
        if over capacity. */
    method OnExecute(meta: PriorityId, reason: Reason, executionSlot: Slot)
      requires Valid() && meta in executes
      modifies `executingTx, `inFlightCus, `executes, `holders, `declined, `checkedTx, `deferredTx, `txs, manager
      ensures Valid() && executingTx == old(executingTx) - {meta.key} && executes == old(executes) - multiset{meta}
      ensures holders == old(holders) - {meta.key} && declined == old(declined) - {meta.key}
      ensures inFlightCus + meta.cost == old(inFlightCus)
      ensures meta.priority == BUNDLE_MARKER || !IsRetryable(reason) ==>
        txs == old(txs) - {meta.key} && checkedTx == old(checkedTx) && deferredTx == old(deferredTx)
      ensures meta.priority != BUNDLE_MARKER && IsRetryable(reason) ==>
        var defers := executionSlot == slot && reason != AccountInUse;
        var checked := if defers then old(checkedTx) else old(checkedTx) + {meta};
        var full := |checked| + |executingTx| + |deferredTx| > checkedCapacity && checked != {};
        && deferredTx == (if defers then old(deferredTx) + {meta} else old(deferredTx))
        && checkedTx == (if full then checked - {First(checked)} else checked)
        && txs == if full then old(txs) - {First(checked).key} else old(txs)
      ensures meta.priority == 0xFFFF_FFFF_FFFF_FFFF || reason == Included || reason.OtherReason? ==>
        txs == old(txs) - {meta.key} && checkedTx == old(checkedTx) && deferredTx == old(deferredTx)
      ensures
        && meta.priority != 0xFFFF_FFFF_FFFF_FFFF
        && (|| reason == AccountInUse || reason == BankNotAvailable
            || reason == WouldExceedMaxBlockCostLimit || reason == WouldExceedMaxAccountCostLimit
            || reason == WouldExceedAccountDataBlockLimit || reason == WouldExceedMaxVoteCostLimit
            || reason == WouldExceedAccountDataTotalLimit)
        ==>
        var defers := executionSlot == slot && reason != AccountInUse;
        var checked := if defers then old(checkedTx) else old(checkedTx) + {meta};
        && deferredTx == (if defers then old(deferredTx) + {meta} else old(deferredTx))
        && if |checked| + |executingTx| + |deferredTx| > checkedCapacity && checked != {}
           then LosesLowest(checked, old(txs), checkedTx, txs)
           else checkedTx == checked && txs == old(txs)
    {
      hide Valid, Unplaced, First, IsRetryable, LosesLowest;
      RetryReasons(reason);
      Finish(meta);
      if meta.priority == BUNDLE_MARKER || !IsRetryable(reason) {
        Drop(meta.key);
      } else {
        Retry(meta, executionSlot == slot && reason != AccountInUse);
      }
    }

    /** Puts the transaction back, for now or for the next slot, and makes room for it. */
    method Retry(meta: PriorityId, defers: bool)
      requires Valid() && meta.key in txs && Unplaced(meta.key, Loose(), bundles, executingTx)
      modifies `checkedTx, `deferredTx, `txs, manager`queueDepths
      ensures Valid()
      ensures
        var checked := if defers then old(checkedTx) else old(checkedTx) + {meta};
        var full := |checked| + |executingTx| + |deferredTx| > checkedCapacity && checked != {};
        && deferredTx == (if defers then old(deferredTx) + {meta} else old(deferredTx))
        && checkedTx == (if full then checked - {First(checked)} else checked)
        && (txs == if full then old(txs) - {First(checked).key} else old(txs))
        && (full ==> LosesLowest(checked, old(txs), checkedTx, txs))
    {
      hide Valid, Unplaced, First, LosesLowest;
      if defers {
        Defer(meta);
      } else {
        InsertChecked(meta);
      }
      EvictIfOver();
    }

    method EvictIfOver()
      requires Valid()
      modifies `checkedTx, `txs, manager`queueDepths
      ensures Valid()
      ensures var full := |old(checkedTx)| + |executingTx| + |deferredTx| > checkedCapacity && old(checkedTx) != {};
        && checkedTx == (if full then old(checkedTx) - {First(old(checkedTx))} else old(checkedTx))
        && (txs == if full then old(txs) - {First(old(checkedTx)).key} else old(txs))
        && (full ==> LosesLowest(old(checkedTx), old(txs), checkedTx, txs))
    {
      hide Valid, First, LosesLowest;
      if |checkedTx| + |executingTx| + |deferredTx| > checkedCapacity && checkedTx != {} {
        EvictLowestChecked();
      }
    }

    // ---- Slots ----

    /** Starts another recheck sweep unless one is under way. */
    method StartRecheck()
      modifies `nextRecheck
      ensures nextRecheck == if old(nextRecheck).Some? || checkedTx == {} then old(nextRecheck) else Some(Last(checkedTx))
      ensures old(nextRecheck).None? ==>
        if nextRecheck.None? then checkedTx == {}
        else nextRecheck.value in checkedTx && forall x | x in checkedTx :: AtMost(x, nextRecheck.value)
    {
      if nextRecheck.None? && checkedTx != {} {
        var last := PeekLast(checkedTx);
        nextRecheck := Some(last);
      }
    }

    method Undefer(meta: PriorityId)
      requires Valid() && meta in deferredTx
      modifies `checkedTx, `deferredTx, manager`queueDepths
      ensures Valid() && checkedTx == old(checkedTx) + {meta} && deferredTx == old(deferredTx) - {meta}
    {
      hide Indexed, Waiting, Unplaced, Outstanding, SumCost;
      TakenWaits(txs, Loose(), bundles, executingTx, meta);
      assert Loose() - {meta} == checkedTx + (deferredTx - {meta});
      deferredTx := deferredTx - {meta};
      InsertChecked(meta);
    }

    /** A new slot puts every deferred transaction back among the checked ones. */
    method ChangeSlot(newSlot: Slot)
      requires Valid()
      modifies `slot, `checkedTx, `deferredTx, `nextRecheck, manager`queueDepths
      ensures Valid() && slot == newSlot
      ensures checkedTx == old(checkedTx) + old(deferredTx) && deferredTx == {}
      ensures nextRecheck == if old(nextRecheck).Some? || checkedTx == {} then old(nextRecheck) else Some(Last(checkedTx))
      ensures old(nextRecheck).None? ==>
        if nextRecheck.None? then checkedTx == {}
        else nextRecheck.value in checkedTx && forall x | x in checkedTx :: AtMost(x, nextRecheck.value)
    {
      hide Valid, Last;
      slot := newSlot;
      while deferredTx != {}
        invariant Valid() && checkedTx + deferredTx == old(checkedTx) + old(deferredTx)
        invariant slot == newSlot && nextRecheck == old(nextRecheck)
        decreases |deferredTx|
      {
        var meta :| meta in deferredTx;
        Undefer(meta);
      }
      StartRecheck();
    }

    // ---- One transaction, out of order ----

    /** The greatest checked transaction that fits the budget and conflicts with no
        holder, if there is any. */
    method FindTransaction(budget: nat) returns (found: Option<PriorityId>)
      requires Valid()
      ensures found.None? ==> forall m | m in checkedTx :: !Eligible(m, budget, holders, txs)
      ensures found.Some? ==>
        && found.value in checkedTx && Eligible(found.value, budget, holders, txs)
        && forall m | m in checkedTx && Eligible(m, budget, holders, txs) :: AtMost(m, found.value)
    {
      hide Indexed, FreeOf, DistinctAccounts, Outstanding, SumCost;
      var rest := checkedTx;
      while rest != {}
        invariant rest <= checkedTx
        invariant forall m | m in checkedTx - rest :: !Eligible(m, budget, holders, txs)
        decreases |rest|
      {
        var tx := PeekLast(rest);
        assert tx in Loose();
        var ok := CanLock(tx.key);
        if tx.cost <= budget && ok {
          return Some(tx);
        }
        rest := rest - {tx};
      }
      found := None;
    }

    /** Schedules the greatest eligible transaction. Fails exactly when there is none; in
        particular the acquire after the dry run never fails. When the head of the queue is
        eligible it is the one picked, as in the batch scheduler. It is queued for its
        accounts once more and taken out once, which leaves the depths as if it still
        waited. It conflicts with something that executes exactly when it conflicts with
        something that was declined its locks. */
    method TryScheduleTransaction(budget: nat) returns (left: nat, ok: bool)
      requires Valid() && scheduleBatch == []
      modifies manager, `holders, `checkedTx, `inFlightCus, `scheduleBatch, `executes
      ensures Indexed(manager.accountLocks, holders, txs) && manager.queueDepths == old(manager.queueDepths)
      ensures ok <==> exists m :: m in old(checkedTx) && Eligible(m, budget, old(holders), txs)
      ensures !ok ==> unchanged(this) && unchanged(manager) && left == budget
      ensures ok ==> |scheduleBatch| == 1 && var m := scheduleBatch[0];
        && m in old(checkedTx) && Eligible(m, budget, old(holders), txs)
        && (forall x | x in old(checkedTx) && Eligible(x, budget, old(holders), txs) :: AtMost(x, m))
        && (Eligible(Last(old(checkedTx)), budget, old(holders), txs) ==> m == Last(old(checkedTx)))
        && checkedTx == old(checkedTx) - {m} && holders == old(holders) + {m.key}
        && executes == old(executes) + multiset(scheduleBatch)
        && left + m.cost == budget && inFlightCus == old(inFlightCus) + m.cost
        && (ConflictsAny(executingTx, txs, m.key) <==> ConflictsAny(declined, txs, m.key))
    {
      hide Valid, FreeOf, Eligible, DistinctAccounts, ConflictsAny;
      left, ok := budget, false;
      HoldersAreIndexed();
      var found := FindTransaction(budget);
      if found.Some? {
        EligibleIsFree(found.value, budget);
        left := TakeTransaction(found.value, budget);
        ok := true;
      }
    }

    lemma EligibleIsFree(m: PriorityId, budget: nat)
      requires Valid() && m in checkedTx && Eligible(m, budget, holders, txs)
      ensures ConflictsAny(executingTx, txs, m.key) <==> ConflictsAny(declined, txs, m.key)
    {
      hide ConflictsAny, FreeOf, Waiting, Indexed;
      StartConflictsIff(holders, declined, txs, m.key);
    }

    lemma HoldersAreIndexed()
      requires Valid()
      ensures Indexed(manager.accountLocks, holders, txs)
    {
    }

    /** The locks are taken once more and for good; the transaction leaves the queues. */
    method TakeTransaction(tx: PriorityId, budget: nat) returns (left: nat)
      requires Valid() && tx in checkedTx && Eligible(tx, budget, holders, txs)
      modifies manager, `holders, `checkedTx, `inFlightCus, `scheduleBatch, `executes
      ensures Indexed(manager.accountLocks, holders, txs) && manager.queueDepths == old(manager.queueDepths)
      ensures scheduleBatch == [tx] && checkedTx == old(checkedTx) - {tx} && holders == old(holders) + {tx.key}
      ensures executes == old(executes) + multiset(scheduleBatch)
      ensures left + tx.cost == budget && inFlightCus == old(inFlightCus) + tx.cost
    {
      hide Indexed, FreeOf, DistinctAccounts, Outstanding, SumCost;
      assert tx in Loose();
      var ok := LockIfFree(tx.key);
      assert ok;  // the acquire after the dry run never fails
      manager.QueueTransaction(txs[tx.key].locks);
      scheduleBatch := [tx];
      executes := executes + multiset(scheduleBatch);
      left := budget - tx.cost;
      inFlightCus := inFlightCus + tx.cost;
      var removed := RemoveChecked(tx);
      assert removed;  // the assert on the removal
    }

    // ---- A bundle, all or nothing ----

    /** Schedules the top bundle exactly when it fits the budget, conflicts with no holder
        and has no conflict within itself. Otherwise the lock map is left as it was, also
        when the conflict shows up halfway through the bundle; but then the members before
        it stay queued twice. */
    method TryScheduleBundle(budget: nat) returns (left: nat)
      requires Valid() && bundles != {} && scheduleBatch == []
      modifies manager, `holders, `bundles, `inFlightCus, `scheduleBatch, `executes
      ensures Indexed(manager.accountLocks, holders, txs) && Remembered(manager.queueDepths)
      ensures var b := LastBundle(old(bundles));
        if BundleStarts(b, budget, old(holders), txs) then
          && scheduleBatch == BundleBatch(b) && scheduleBatch != []
          && bundles == old(bundles) - {b} && holders == old(holders) + KeySet(b.keys)
          && left + b.cost == budget && inFlightCus == old(inFlightCus) + b.cost
          && executes == old(executes) + multiset(scheduleBatch)
          && manager.queueDepths == old(manager.queueDepths)
          && OnlyDeclinedInTheWay(KeySet(b.keys), executingTx, declined, txs)
        else
          && manager.accountLocks == old(manager.accountLocks) && holders == old(holders)
          && bundles == old(bundles) && scheduleBatch == [] && left == budget && inFlightCus == old(inFlightCus)
          && executes == old(executes)
          && manager.queueDepths ==
               if b.cost <= budget && AllFreeOf(b.keys, old(holders), txs)
               then Queued(old(manager.queueDepths), LocksOf(b.keys[..FreePrefix(b.keys, txs)], txs))
               else old(manager.queueDepths)
    {
      hide Indexed, FreeOf, DistinctAccounts, PairwiseFree, BundleBatch, FreePrefix, LocksOf, Outstanding, SumCost,
        OnlyDeclinedInTheWay;
      left := budget;
      var bundle := PeekLastBundle(bundles);
      // The lock map is read only up to here, so both ways out leave it as it was.
      if bundle.cost > budget {
        return;
      }
      var ok := CanLockEach(bundle.keys);
      if !ok {
        return;
      }
      MembersConflictIff(bundle.keys, holders, declined, txs);
      ghost var depths := manager.queueDepths;
      ok := AcquireBundle(bundle);
      if !ok {
        return;
      }
      scheduleBatch := BundleBatch(bundle);
      executes := executes + multiset(scheduleBatch);
      left := budget - bundle.cost;
      inFlightCus := inFlightCus + bundle.cost;
      DequeueBundle(bundle.keys);
      DequeueUndoesQueue(depths, LocksOf(bundle.keys, txs));
      bundles := bundles - {bundle};
    }

    method CanLockEach(keys: seq<Key>) returns (ok: bool)
      requires Indexed(manager.accountLocks, holders, txs)
      requires forall k | k in keys :: k in txs && k !in holders && DistinctAccounts(txs[k].locks)
      ensures ok <==> AllFreeOf(keys, holders, txs)
    {
      hide Indexed, FreeOf, DistinctAccounts;
      var i := 0;
      while i < |keys|
        invariant 0 <= i <= |keys|
        invariant forall j | 0 <= j < i :: FreeOf(holders, txs, keys[j])
      {
        ok := CanLock(keys[i]);
        if !ok {
          return;
        }
        i := i + 1;
      }
      ok := true;
    }

    /** Takes the locks member by member and queues each; on the first member that is
        declined, releases those taken before it, which stay queued. */
    method AcquireBundle(b: BundleId) returns (granted: bool)
      requires Indexed(manager.accountLocks, holders, txs) && DistinctKeys(b.keys) && Remembered(manager.queueDepths)
      requires AllFreeOf(b.keys, holders, txs)
      requires forall k | k in b.keys :: k in txs && k !in holders && DistinctAccounts(txs[k].locks)
      modifies manager, `holders
      ensures Indexed(manager.accountLocks, holders, txs) && Remembered(manager.queueDepths)
      ensures granted <==> PairwiseFree(b.keys, txs)
      ensures holders == if granted then old(holders) + KeySet(b.keys) else old(holders)
      ensures !granted ==> manager.accountLocks == old(manager.accountLocks)
      ensures granted ==> manager.queueDepths == Queued(old(manager.queueDepths), LocksOf(b.keys, txs))
      ensures !granted ==>
        manager.queueDepths == Queued(old(manager.queueDepths), LocksOf(b.keys[..FreePrefix(b.keys, txs)], txs))
    {
      hide Indexed, FreeOf, DistinctAccounts, FreePrefix, LocksOf;
      ghost var before := holders;
      NoLocks(txs);
      var i := 0;
      while i < |b.keys|
        invariant 0 <= i <= |b.keys| && Remembered(manager.queueDepths)
        invariant holders == before + KeySet(b.keys[..i]) && Indexed(manager.accountLocks, holders, txs)
        invariant PairwiseFree(b.keys[..i], txs)
        invariant manager.queueDepths == Queued(old(manager.queueDepths), LocksOf(b.keys[..i], txs))
      {
        NextKey(b.keys, i);
        MemberFree(b, i, before, txs);
        NextMemberFree(b.keys, txs, i);
        granted := LockIfFree(b.keys[i]);
        if !granted {
          StopsAt(b.keys, txs, i);
          ReleasePrefix(b.keys, i, before);
          IndexedIsUnique(manager.accountLocks, old(manager.accountLocks), before, txs);
          return;
        }
        QueueNext(old(manager.queueDepths), b.keys, txs, i);
        manager.QueueTransaction(txs[b.keys[i]].locks);
        i := i + 1;
      }
      assert b.keys[..|b.keys|] == b.keys;
      granted := true;
    }

    /** Releases the members before position `n`, where the declined key stands. */
    method ReleasePrefix(keys: seq<Key>, n: nat, ghost before: set<Key>)
      requires n <= |keys| && DistinctKeys(keys) && Indexed(manager.accountLocks, holders, txs)
      requires holders == before + KeySet(keys[..n])
      requires forall k | k in keys :: k in txs && k !in before && DistinctAccounts(txs[k].locks)
      modifies manager`accountLocks, `holders
      ensures holders == before && Indexed(manager.accountLocks, holders, txs)
    {
      hide Indexed, DistinctAccounts;
      var j := 0;
      while j < n
        invariant 0 <= j <= n && Indexed(manager.accountLocks, holders, txs)
        invariant holders == before + (KeySet(keys[..n]) - KeySet(keys[..j]))
      {
        NextKey(keys, j);
        Unlock(keys[j]);
        j := j + 1;
      }
    }

    // ---- The worker loop ----

    /** Everything but the executing marks of the batch is in place. */
    ghost predicate Sending()
      reads `txs, `checkedTx, `deferredTx, `bundles, `executingTx, `inFlightCus, `executes, `holders, `declined, `scheduleBatch, manager
    {
      && Indexed(manager.accountLocks, holders, txs) && Remembered(manager.queueDepths)
      && executingTx + BatchKeys(scheduleBatch) == holders + declined && holders !! declined && executingTx <= txs.Keys
      && Queues() && Departing(scheduleBatch, txs, Loose(), bundles, executingTx)
      && Outstanding(executes, executingTx + BatchKeys(scheduleBatch)) && inFlightCus == SumCost(executes)
    }

    /** Marks everything in the batch as executing. */
    method MarkExecuting()
      requires Sending()
      modifies `executingTx
      ensures Valid() && executingTx == old(executingTx) + BatchKeys(scheduleBatch)
    {
      hide Indexed, Waiting, Outstanding, SumCost;
      DepartedWait(scheduleBatch, txs, Loose(), bundles, executingTx);
      var i := 0;
      while i < |scheduleBatch|
        invariant 0 <= i <= |scheduleBatch|
        invariant executingTx == old(executingTx) + BatchKeys(scheduleBatch[..i])
      {
        NextOfBatch(scheduleBatch, i);
        assert scheduleBatch[i].key !in executingTx;  // the insertion's assert
        executingTx := executingTx + {scheduleBatch[i].key};
        i := i + 1;
      }
      assert scheduleBatch[..|scheduleBatch|] == scheduleBatch;
    }

    /** Schedules the greatest eligible transaction, if there is any; it is on its way then. */
    method SendTransaction(budget: nat) returns (left: nat, ok: bool)
      requires Valid() && scheduleBatch == []
      modifies manager, `holders, `checkedTx, `inFlightCus, `scheduleBatch, `executes
      ensures manager.queueDepths == old(manager.queueDepths)
      ensures ok <==> EligibleOf(old(checkedTx), budget, old(holders), txs) != {}
      ensures !ok ==> unchanged(this) && unchanged(manager) && left == budget
      ensures ok ==> var c := Single(Last(EligibleOf(old(checkedTx), budget, old(holders), txs)));
        && Sending() && scheduleBatch == c.Batch() && left + c.Cost() == budget
        && At(left) == After(old(At(budget)), c).(executing := old(executingTx)) && inFlightCus + left == old(inFlightCus) + budget
    {
      hide Indexed, Waiting, FreeOf, Eligible, EligibleOf, DistinctAccounts, Outstanding, SumCost, Departing, Last, ConflictsAny;
      left, ok := TryScheduleTransaction(budget);
      if ok {
        var m := scheduleBatch[0];
        GreatestIsLast(old(checkedTx), budget, old(holders), txs, m);
        assert m in old(Loose()) && old(Loose()) - {m} == Loose();
        TransactionDeparts(txs, old(Loose()), bundles, executingTx, m);
        assert scheduleBatch == [m];
        BatchKeysAre(Single(m));
        DepartingKeys(scheduleBatch, txs, Loose(), bundles, executingTx);
        OutstandingGrows(old(executes), executingTx, scheduleBatch);
        SumCostBatch(old(executes), Single(m));
        HoldersStayApart(old(holders), declined, executingTx, scheduleBatch);
      } else {
        NoneEligible(checkedTx, budget, holders, txs);
      }
    }

    /** Schedules the top bundle if it starts; it is on its way then. */
    method SendBundle(budget: nat) returns (left: nat)
      requires Valid() && bundles != {} && scheduleBatch == []
      modifies manager, `holders, `bundles, `inFlightCus, `scheduleBatch, `executes
      ensures Sending() && inFlightCus + left == old(inFlightCus) + budget
      ensures var c := Pack(LastBundle(old(bundles)));
        if BundleStarts(c.bundle, budget, old(holders), txs) then
          && scheduleBatch == c.Batch() && scheduleBatch != [] && left + c.Cost() == budget
          && At(left) == After(old(At(budget)), c).(executing := old(executingTx))
          && manager.queueDepths == old(manager.queueDepths)
        else
          && scheduleBatch == [] && left == budget && At(left) == old(At(budget))
          && manager.accountLocks == old(manager.accountLocks)
          && manager.queueDepths == LeftQueued(old(At(budget)), txs, old(manager.queueDepths))
    {
      hide Indexed, Waiting, FreeOf, BundleStarts, DistinctAccounts, Outstanding, SumCost, Departing, LastBundle, BundleBatch, AllFreeOf,
        FreePrefix, LocksOf, OnlyDeclinedInTheWay;
      ghost var b := LastBundle(bundles);
      LastBundleIsIn(bundles);
      BundleDeparts(txs, Loose(), bundles, executingTx, b);
      NothingDeparts(txs, Loose(), bundles, executingTx);
      NothingSent(executingTx);
      left := TryScheduleBundle(budget);
      if BundleStarts(b, budget, old(holders), txs) {
        DepartingKeys(scheduleBatch, txs, Loose(), bundles, executingTx);
        OutstandingGrows(old(executes), executingTx, scheduleBatch);
        BundleCosts(old(executes), b);
        HoldersStayApart(old(holders), declined, executingTx, scheduleBatch);
      } else {
        NothingSent(holders);
      }
    }

    /** What one worker gets is the pick: it leaves where it waited, everything else waits
        on, and a turn without a pick changes nothing but what is left queued. */
    method ScheduleNext(budget: nat) returns (left: nat)
      requires Valid()
      modifies manager, `holders, `checkedTx, `bundles, `inFlightCus, `scheduleBatch, `executingTx, `executes
      ensures Valid() && inFlightCus + left == old(inFlightCus) + budget
      ensures match Pick(old(At(budget)), txs)
        case None =>
          && scheduleBatch == [] && left == budget && At(left) == old(At(budget))
          && manager.accountLocks == old(manager.accountLocks)
          && manager.queueDepths == LeftQueued(old(At(budget)), txs, old(manager.queueDepths))
        case Some(c) =>
          && scheduleBatch == c.Batch() && scheduleBatch != [] && left + c.Cost() == budget
          && At(left) == After(old(At(budget)), c)
          && manager.queueDepths == old(manager.queueDepths)
          && KeySet(c.Keys()) !! old(executingTx)
          && OnlyDeclinedInTheWay(KeySet(c.Keys()), old(executingTx), declined, txs)
    {
      hide Sending, Valid, Pick, After, OnlyDeclinedInTheWay, FreeOf, LeftQueued, Candidate.Batch, Candidate.Keys;
      ghost var d := At(budget);
      PickLeavesDeclined(budget);
      left := PickNext(budget);
      SendingDeparts();
      MarkExecuting();
      if Pick(d, txs).Some? {
        BatchKeysAre(Pick(d, txs).value);
        AfterExecuting(d, Pick(d, txs).value);
      } else {
        NothingSent(d.executing);
      }
    }

    /** What is picked is in conflict only with what was declined its locks. */
    lemma PickLeavesDeclined(budget: nat)
      requires Valid()
      ensures Pick(At(budget), txs).Some? ==>
        OnlyDeclinedInTheWay(KeySet(Pick(At(budget), txs).value.Keys()), executingTx, declined, txs)
    {
      hide Pick, OnlyDeclinedInTheWay, FreeOf;
      if Pick(At(budget), txs).Some? {
        PickedIsFree(At(budget), txs);
        StartsConflictIff(KeySet(Pick(At(budget), txs).value.Keys()), holders, declined, txs);
      }
    }

    method PickNext(budget: nat) returns (left: nat)
      requires Valid()
      modifies manager, `holders, `checkedTx, `bundles, `inFlightCus, `scheduleBatch, `executes
      ensures Sending() && inFlightCus + left == old(inFlightCus) + budget
      ensures match Pick(old(At(budget)), txs)
        case None =>
          && scheduleBatch == [] && left == budget && At(left) == old(At(budget))
          && manager.accountLocks == old(manager.accountLocks)
          && manager.queueDepths == LeftQueued(old(At(budget)), txs, old(manager.queueDepths))
        case Some(c) =>
          && scheduleBatch == c.Batch() && scheduleBatch != [] && left + c.Cost() == budget
          && At(left) == After(old(At(budget)), c).(executing := old(executingTx))
          && manager.queueDepths == old(manager.queueDepths)
    {
      hide Sending, Valid, EligibleOf, BundleStarts, BundleBatch, BatchKeys, After, LeftQueued;
      scheduleBatch := [];
      left := budget;
      NothingToSend();
      NoneLeft(At(budget), txs, manager.queueDepths);
      var txFirst := checkedTx != {};
      if checkedTx != {} && bundles != {} {
        var tx := PeekLast(checkedTx);
        var bundle := PeekLastBundle(bundles);
        txFirst := tx.priority >= bundle.priority;
      }
      var ok := false;
      if txFirst {
        left, ok := SendTransaction(budget);
      }
      if !ok && bundles != {} {
        left := SendBundle(budget);
      }
    }

    lemma NothingToSend()
      requires Valid() && scheduleBatch == []
      ensures Sending() && holders == holders + BatchKeys(scheduleBatch)
    {
      hide Indexed, Waiting, Outstanding, SumCost;
      NothingDeparts(txs, Loose(), bundles, executingTx);
      NothingSent(executingTx);
      NothingSent(holders);
    }

    lemma SendingDeparts()
      requires Sending()
      ensures BatchKeys(scheduleBatch) !! executingTx
    {
    }

    /** One batch per idle worker while the budget lasts and something can start. The
        batches are those of the picks, each in the state the ones before it left, and what
        is not picked waits on. Units stay within the block's share, and if idle workers and
        budget are left, nothing can be picked. */
    method ScheduleExecute(slotProgress: nat, remainingCostUnits: nat, idle: seq<bool>) returns (sent: seq<Sent>)
      requires Valid() && |idle| >= EXECUTE_WORKER_START
      modifies manager, `holders, `checkedTx, `bundles, `inFlightCus, `scheduleBatch, `executingTx, `executes
      ensures Valid() && ToIdle(sent, idle, |idle|)
      ensures var limit := BudgetLimit(slotProgress, blockFillCutoff); var used := UsedUnits(remainingCostUnits);
        var d := old(At(SatSub(limit, used + inFlightCus)));
        var d' := At(SatSub(limit, used + inFlightCus));
        && Emitted(sent, d, txs) && d' == AfterPicks(d, txs, |sent|)
        && (sent != [] ==> used + inFlightCus <= limit)
        && (|sent| == IdleWorkers(idle, EXECUTE_WORKER_START) || d'.budget == 0 || Pick(d', txs).None?)
      ensures sent != [] ==>
        && inFlightCus <= remainingCostUnits
        && 100 * ((if remainingCostUnits < MAX_BLOCK_UNITS then MAX_BLOCK_UNITS - remainingCostUnits else 0) + inFlightCus)
           <= MAX_BLOCK_UNITS * (if slotProgress + blockFillCutoff < 100 then slotProgress + blockFillCutoff else 100)
      ensures Spare(idle, sent) ==>
        NothingMoreServed(At(0), txs, inFlightCus, slotProgress, blockFillCutoff, remainingCostUnits)
      ensures SentFrom(sent, idle, old(checkedTx) - checkedTx, old(bundles) - bundles)
      ensures |old(checkedTx) - checkedTx| + |old(bundles) - bundles| == |sent|
      ensures executes == old(executes) + multiset(Flat(Transactions(sent)))
    {
      hide SentFrom, Transactions, Flat;
      hide Valid, Served, BudgetLimit, UsedUnits, IdleWorkers, ToIdle, Emitted, AfterPicks, Pick, After, LeftQueued,
        OnlyDeclinedInTheWay, NothingMoreServed, Spare, AllKnown;
      var limit := BudgetLimit(slotProgress, blockFillCutoff);
      var used := UsedUnits(remainingCostUnits);
      var budget := SatSub(limit, used + inFlightCus);
      ghost var d := At(budget);
      sent := [];
      var worker := EXECUTE_WORKER_START;
      ServedStart(idle, d, txs);
      while worker < |idle|
        invariant EXECUTE_WORKER_START <= worker <= |idle| && Valid()
        invariant Served(sent, idle, worker, d, txs, At(budget))
        invariant budget == SatSub(limit, used + inFlightCus) && (sent != [] ==> used + inFlightCus <= limit)
      {
        // A spent budget is one of the reasons to stop.
        if budget == 0 {
          break;
        }
        // Busy workers are passed over and do not count as served.
        if !idle[worker] {
          ServedSkips(sent, idle, worker, d, txs, At(budget));
        } else {
          if checkedTx == {} && bundles == {} {
            NothingToPick(At(budget), txs);
            break;
          }
          ghost var now := At(budget);
          var left := ScheduleNext(budget);
          if scheduleBatch == [] {
            break;
          }
          ServedSends(sent, idle, worker, d, txs, now);
          sent := sent + [Sent(worker, scheduleBatch)];
          budget := left;
        }
        worker := worker + 1;
      }
      ServedAll(sent, idle, worker, d, txs, At(budget));
      DeskIsKnown(budget);
      ServedInWords(d, At(budget), txs, sent, idle, inFlightCus, slotProgress, blockFillCutoff, remainingCostUnits);
    }

    lemma DeskIsKnown(budget: nat)
      requires Valid()
      ensures AllKnown(At(budget), txs)
    {
      hide Indexed;
      assert forall m | m in checkedTx :: m in Loose();
    }

    // ---- Tips ----

    /** Looks at the first tip transaction's locks only, then sends both. The second one
        gets its locks if they are free, and executes without them otherwise: when it
        overlaps the first, as any two that write an account in common do, or is not free of
        the holders. At the call, a conflict with
        something outside the pair arises exactly when the second tip is not free of the
        holders, or when something that was declined its locks before is in the way. While
        the second tip executes without locks, whatever starts may conflict with it. */
    method BecomeTipReceiver(t: TipPair) returns (scheduled: bool)
      requires Valid() && t.Fresh(txs)
      modifies manager`accountLocks, `txs, `holders, `declined, `executingTx, `executes
      ensures Valid()
      ensures scheduled <==> FreeOf(old(holders), old(txs) + map[t.key1 := t.Tx1()], t.key1)
      ensures !scheduled ==>
        && txs == old(txs) && executingTx == old(executingTx) && manager.accountLocks == old(manager.accountLocks)
        && holders == old(holders) && declined == old(declined) && executes == old(executes)
      ensures scheduled ==>
        && txs == old(txs) + map[t.key1 := t.Tx1(), t.key2 := t.Tx2()] && executingTx == old(executingTx) + {t.key1, t.key2}
        && executes == old(executes) + multiset{MetaOf(t.key1, t.Tx1()), MetaOf(t.key2, t.Tx2())}
        && var granted := FreeOf(old(holders), txs, t.key2) && !Conflict(t.locks1, t.locks2);
        && holders == old(holders) + {t.key1} + (if granted then {t.key2} else {})
        && declined == old(declined) + (if granted then {} else {t.key2})
      ensures scheduled && (exists a :: Writes(t.locks1, a) && Writes(t.locks2, a)) ==> t.key2 in declined
      ensures scheduled ==>
        (ClashesWith(old(executingTx), txs, t) <==> !FreeOf(old(holders), txs, t.key2) || ClashesWith(old(declined), txs, t))
      ensures scheduled && old(declined) == {} ==> (ClashesWith(old(executingTx), txs, t) <==> !FreeOf(old(holders), txs, t.key2))
    {
      hide Valid, Indexed, DistinctAccounts, FreeOf, ClashesWith, Unplaced;
      ghost var before := txs;
      InsertTips(t);
      scheduled := CanLockFirst(t);
      if scheduled {
        SecondIsFreeIff(holders, txs, t);
        CommonWriteOverlaps(t.locks1, t.locks2);
        ClashIff(holders, declined, txs, t);
        NoneClash(txs, t);
        SendTips(t);
      } else {
        Drop(t.key1);
        Drop(t.key2);
        assert txs == before;
      }
    }

    /** The bridge holds the tips; they are nowhere yet. */
    method InsertTips(t: TipPair)
      requires Valid() && t.Fresh(txs)
      modifies `txs
      ensures Valid() && txs == old(txs) + map[t.key1 := t.Tx1(), t.key2 := t.Tx2()]
      ensures Unplaced(t.key1, Loose(), bundles, executingTx) && Unplaced(t.key2, Loose(), bundles, executingTx)
      ensures FreeOf(holders, txs, t.key1) == FreeOf(holders, old(txs) + map[t.key1 := t.Tx1()], t.key1)
      ensures executingTx == holders + declined
    {
      hide Indexed, FreeOf, DistinctAccounts, Outstanding, SumCost;
      TipsArrive(manager.accountLocks, holders, txs, Loose(), bundles, executingTx, t);
      txs := txs + map[t.key1 := t.Tx1(), t.key2 := t.Tx2()];
    }

    method CanLockFirst(t: TipPair) returns (ok: bool)
      requires Valid() && t.key1 in txs && Unplaced(t.key1, Loose(), bundles, executingTx)
      ensures ok <==> FreeOf(holders, txs, t.key1)
    {
      hide Indexed, FreeOf, DistinctAccounts, Outstanding, SumCost;
      ok := CanLock(t.key1);
    }

    /** Locks the first tip, the second if that can be, and sends both. */
    method SendTips(t: TipPair)
      requires Valid() && t.key1 in txs && t.key2 in txs && txs[t.key1] == t.Tx1() && txs[t.key2] == t.Tx2() && t.key1 != t.key2
      requires Unplaced(t.key1, Loose(), bundles, executingTx) && Unplaced(t.key2, Loose(), bundles, executingTx)
      requires FreeOf(holders, txs, t.key1)
      modifies manager`accountLocks, `holders, `declined, `executingTx, `executes
      ensures Valid() && executingTx == old(executingTx) + {t.key1, t.key2}
      ensures executes == old(executes) + multiset{MetaOf(t.key1, t.Tx1()), MetaOf(t.key2, t.Tx2())}
      ensures var granted := FreeOf(old(holders) + {t.key1}, txs, t.key2);
        && holders == old(holders) + {t.key1} + (if granted then {t.key2} else {})
        && declined == old(declined) + (if granted then {} else {t.key2})
    {
      hide Indexed, Waiting, FreeOf, DistinctAccounts, Outstanding, SumCost;
      PlacedInTwo(txs, Loose(), bundles, executingTx, t.key1, t.key2);
      TipsOutstanding(executes, executingTx, t);
      assert t.key1 !in executingTx && t.key2 !in executingTx;  // the insertions' asserts
      var ok1 := LockIfFree(t.key1);
      var ok2 := LockIfFree(t.key2);
      declined := declined + if ok2 then {} else {t.key2};
      executingTx := executingTx + {t.key1, t.key2};
      executes := executes + multiset{MetaOf(t.key1, t.Tx1()), MetaOf(t.key2, t.Tx2())};
    }

    lemma ExecutingAreKnown()
      requires Valid()
      ensures executingTx <= txs.Keys
      ensures forall m | m in Loose() :: m.key in txs
    {
    }

    lemma UnitsAreCounted()
      requires Valid()
      ensures inFlightCus == SumCost(executes)
    {
    }

    lemma NobodyHolds()
      requires Valid() && executingTx == {}
      ensures holders == {}
    {
    }
  }

  // ---- What can go wrong, from a new scheduler on ----

  /** Hands the scheduler one checked transaction, alone in the queues. */
  method InsertOne(s: Scheduler, key: Key, tx: Tx)
    requires s.Valid() && key !in s.txs && Ordinary(tx) && s.Loose() == {} && s.bundles == {}
    requires |s.executingTx| < s.checkedCapacity
    modifies s`txs, s`checkedTx, s.manager`queueDepths
    ensures s.Valid() && s.txs == old(s.txs)[key := tx] && s.checkedTx == {MetaOf(key, tx)}
  {
    hide Scheduler.Valid, Unplaced;
    s.ExecutingAreKnown();
    s.Insert(key, tx);
    OneIsNowhere(key, s.executingTx);
    var ok := s.InsertFirstChecked(MetaOf(key, tx));
  }

  /** One worker, a whole block's budget, and one transaction that is free: it is sent. */
  method SendOne(s: Scheduler, m: PriorityId)
    requires s.Valid() && s.checkedTx == {m} && s.bundles == {} && s.inFlightCus == 0 && s.blockFillCutoff == 0
    requires 0 < m.cost <= MAX_BLOCK_UNITS && FreeOf(s.holders, s.txs, m.key)
    modifies s.manager, s`holders, s`checkedTx, s`bundles, s`inFlightCus, s`scheduleBatch, s`executingTx, s`executes
    ensures s.Valid() && s.checkedTx == {} && s.executingTx == old(s.executingTx) + {m.key}
  {
    hide Scheduler.Valid, FreeOf, Pick, AfterPicks, After, ToIdle, Emitted, BudgetLimit, UsedUnits, IdleWorkers, Candidate.Keys;
    ghost var d, txs := s.At(MAX_BLOCK_UNITS), s.txs;
    WholeBlock();
    PickOnlyOne(d, txs, m);
    var sent := s.ScheduleExecute(100, MAX_BLOCK_UNITS, [false, true]);
    OneSent(sent, d, txs, m);
  }

  lemma WholeBlock()
    ensures SatSub(BudgetLimit(100, 0), UsedUnits(MAX_BLOCK_UNITS) + 0) == MAX_BLOCK_UNITS
  {
  }

  lemma SomethingSent(sent: seq<Sent>, d: Desk, txs: map<Key, Tx>)
    requires ToIdle(sent, [false, true], 2) && d.budget > 0 && Pick(d, txs).Some?
    requires var d' := AfterPicks(d, txs, |sent|);
      |sent| == IdleWorkers([false, true], EXECUTE_WORKER_START) || d'.budget == 0 || Pick(d', txs).None?
    ensures |sent| == 1
  {
    hide Pick, Picks, After;
    assert IdleWorkers([false, true], 2) == 0;
    OneEach(sent, [false, true], 2);
  }

  /** The one idle worker gets the pick. */
  lemma OneSent(sent: seq<Sent>, d: Desk, txs: map<Key, Tx>, m: PriorityId)
    requires ToIdle(sent, [false, true], 2) && d.budget > 0 && d.checked == {m} && Pick(d, txs) == Some(Single(m))
    requires var d' := AfterPicks(d, txs, |sent|);
      |sent| == IdleWorkers([false, true], EXECUTE_WORKER_START) || d'.budget == 0 || Pick(d', txs).None?
    ensures var d' := AfterPicks(d, txs, |sent|); d'.checked == {} && d'.executing == d.executing + {m.key}
  {
    SomethingSent(sent, d, txs);
    hide Pick, AfterPicks, After, Picks, ToIdle, IdleWorkers;
    NoPicks(d, txs);
    OnePickMore(d, txs, 1);
    KeysOfSingle(m);
  }

  lemma KeysOfSingle(m: PriorityId)
    ensures KeySet(Single(m).Keys()) == {m.key}
  {
    assert Single(m).Keys()[0] == m.key;
  }

  /** Any transaction the code receives is enough: it passes its check, a sweep starts at
      it, and it is scheduled before it is rechecked. From there the recheck loop never
      ends. */
  method GetStuck(capacity: nat, key: Key, tx: Tx) returns (s: Scheduler)
    requires capacity > 0 && Ordinary(tx)
    ensures fresh(s) && s.Valid() && s.nextRecheck.Some?
    ensures !MayRecheck(s.checkedTx, s.executingTx, s.nextRecheck.value)
    ensures forall n :: !Turns(s.checkedTx, s.executingTx, s.nextRecheck, n).Done?
  {
    hide Scheduler.Valid, Last, MayRecheck, FreeOf;
    s := new Scheduler(0, capacity, 0);
    InsertOne(s, key, tx);
    s.StartRecheck();
    LastOfOne(MetaOf(key, tx));
    s.NobodyHolds();
    FreeOfNobody(s.txs, key);
    SendOne(s, MetaOf(key, tx));
    OneExecutes(s.checkedTx, s.executingTx, MetaOf(key, tx));
    LoopEndsIff(s.checkedTx, s.executingTx, s.nextRecheck);
  }

  /** A pair of tips that overlap, sent by a new scheduler: the second one gets no locks. */
  method GetDeclined(t: TipPair) returns (s: Scheduler)
    requires t.key1 != t.key2 && DistinctAccounts(t.locks1) && DistinctAccounts(t.locks2) && Conflict(t.locks1, t.locks2)
    ensures fresh(s) && fresh(s.manager) && s.Valid() && s.executingTx == {t.key1, t.key2} && s.holders == {t.key1}
    ensures s.txs == map[t.key1 := t.Tx1(), t.key2 := t.Tx2()] && s.Loose() == {} && s.bundles == {}
    ensures s.inFlightCus == 0 && s.blockFillCutoff == 0 && s.checkedCapacity == 3
  {
    hide Scheduler.Valid, FreeOf, Conflict, ClashesWith;
    s := new Scheduler(0, 3, 0);
    s.NobodyHolds();
    FreeOfNobody(s.txs + map[t.key1 := t.Tx1()], t.key1);
    var scheduled := s.BecomeTipReceiver(t);
    TipsCostNothing(t, s.executes);
    s.UnitsAreCounted();
  }

  /** For every pair of tips that overlap, with nothing executing when it is sent, and every
      transaction that conflicts with the second one only: the pair is sent, the second one
      without locks, and then the transaction starts. Both execute. */
  method GetConflicting(t: TipPair, key: Key, tx: Tx) returns (s: Scheduler)
    requires t.key1 != t.key2 && key != t.key1 && key != t.key2 && DistinctAccounts(t.locks1) && DistinctAccounts(t.locks2)
    requires Conflict(t.locks1, t.locks2) && Ordinary(tx) && Conflict(tx.locks, t.locks2) && !Conflict(tx.locks, t.locks1)
    ensures fresh(s) && s.Valid() && s.executingTx == {t.key1, t.key2, key} && s.executingTx <= s.txs.Keys
    ensures s.txs[t.key2].locks == t.locks2 && s.txs[key] == tx && Conflict(s.txs[key].locks, s.txs[t.key2].locks)
  {
    hide Scheduler.Valid, FreeOf, Conflict;
    s := GetDeclined(t);
    InsertOne(s, key, tx);
    FreeOfFirst(s.holders, s.txs, t, key);
    SendOne(s, MetaOf(key, tx));
    s.ExecutingAreKnown();
  }

  /** The ordinary tips and an ordinary tip payment get there. */
  method GetOrdinaryConflict() returns (s: Scheduler)
    ensures fresh(s) && s.Valid() && s.executingTx == {0, 1, 2} <= s.txs.Keys
    ensures Conflict(s.txs[2].locks, s.txs[1].locks)
  {
    hide Scheduler.Valid, Conflict;
    OrdinaryConflicts(0, 1, 9);
    assert Writes(Tipping(9).locks, 9) by {
      assert Tipping(9).locks[0] == Lock(9, true);
    }
    s := GetConflicting(OrdinaryTips(0, 1), 2, Tipping(9));
  }

  /** A bundle of two that conflict with each other: a worker's turn schedules nothing,
      gives all locks back, and leaves the first member queued twice. */
  method GetLeftovers(b: BundleId, tx1: Tx, tx2: Tx, budget: nat) returns (s: Scheduler)
    requires |b.keys| == 2 && b.keys[0] != b.keys[1] && b.cost <= budget && Ordinary(tx1) && Ordinary(tx2)
    requires Conflict(tx1.locks, tx2.locks)
    ensures fresh(s) && s.Valid() && s.bundles == {b} && s.executingTx == {} && s.manager.accountLocks == map[]
    ensures b.keys[0] in s.txs && s.txs[b.keys[0]] == tx1
    ensures s.manager.queueDepths == Queued(Queued(map[], LocksOf(b.keys, s.txs)), tx1.locks)
    ensures s.manager.queueDepths != Queued(map[], LocksOf(b.keys, s.txs))
  {
    hide Scheduler.Valid, Conflict, Unplaced, FreeOf, LeftQueued, Pick, LocksOf;
    s := new Scheduler(0, 1, 2);
    s.Insert(b.keys[0], tx1);
    s.Insert(b.keys[1], tx2);
    NobodyIsPlaced(b.keys[0]);
    NobodyIsPlaced(b.keys[1]);
    assert s.Loose() == {};
    var ok := s.InsertBundle(b);
    s.NobodyHolds();
    ghost var d := s.At(budget);
    ClashingPair(d, s.txs, b, tx1, tx2, s.manager.queueDepths);
    DepthsBackIff(s.manager.queueDepths, tx1.locks);
    var left := s.ScheduleNext(budget);
  }
}
