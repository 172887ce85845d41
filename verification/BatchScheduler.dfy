/** The batch scheduler object. Its methods update the containers, the lock table, the
    compute-unit counter and the cursor in place; each is proved to perform events of
    `Protocol` on the state it stands for. */
module BatchScheduler {
  import opened Arithmetic
  import opened Orders
  import opened Locks
  import opened Protocol
  import opened Invariant
  import opened Capacity
  import opened Theorems
  import opened Ingest
  import opened Responses
  import opened Checks
  import opened Sequences
  import opened Sweep
  import opened Schedule
  import opened Tips
  import opened Polling

  class Scheduler {
    const cfg: Config
    const maxCheckBatches: nat
    const blockFillCutoff: nat
    const bundleExpiry: nat

    // The bridge: the transactions it holds, and what its workers still have to answer.
    var txs: map<Key, Tx>
    ghost var checks: multiset<PriorityId>
    ghost var executes: multiset<PriorityId>

    var bundles: set<BundleId>
    var uncheckedTx: set<PriorityId>
    var checkedTx: set<PriorityId>
    var executingTx: set<Key>
    var deferredTx: set<PriorityId>
    var nextRecheck: Option<PriorityId>
    var inFlightCus: nat
    var inFlightLocks: Table
    var scheduleBatch: seq<PriorityId>
    var slot: Slot
    var wasLeaderReady: bool
    ghost var cohort: map<Key, set<Key>>

    /** The protocol state this object stands for. */
    ghost function View(): World
      reads this
    {
      World(cfg, txs, uncheckedTx, checkedTx, executingTx, deferredTx, bundles, nextRecheck, slot, checks, executes, cohort)
    }

    /** The lock table indexes the executing transactions, and the counter adds up the
        execute messages that are out. */
    ghost predicate Coupled()
      reads `inFlightLocks, `executingTx, `txs, `inFlightCus, `executes
    {
      Exact(inFlightLocks, executingTx, txs) && inFlightCus == SumCost(executes)
    }

    ghost predicate Valid()
      reads this
    {
      Inv(View()) && Coupled()
    }

    constructor (cfg: Config, maxCheckBatches: nat, blockFillCutoff: nat, bundleExpiry: nat)
      ensures Valid() && View() == Init(cfg)
      ensures txs == map[] && bundles == {} && uncheckedTx == {} && checkedTx == {} && executingTx == {} && deferredTx == {}
      ensures nextRecheck == None && slot == 0 && checks == multiset{} && executes == multiset{} && this.cfg == cfg
    {
      this.cfg, this.maxCheckBatches, this.blockFillCutoff, this.bundleExpiry := cfg, maxCheckBatches, blockFillCutoff, bundleExpiry;
      txs, checks, executes, cohort := map[], multiset{}, multiset{}, map[];
      bundles, uncheckedTx, checkedTx, executingTx, deferredTx := {}, {}, {}, {}, {};
      nextRecheck, inFlightCus, inFlightLocks, scheduleBatch := None, 0, map[], [];
      slot, wasLeaderReady := 0, false;
      new;
      InitInv(cfg);
    }

    // ---- Locks ----

    /** True exactly when the table grants every lock of the transaction. */
    method CanLock(key: Key) returns (ok: bool)
      requires key in txs
      ensures ok <==> CanLockAll(inFlightLocks, txs[key].locks)
    {
      var locks := txs[key].locks;
      var i := 0;
      while i < |locks|
        invariant 0 <= i <= |locks|
        invariant forall j | 0 <= j < i :: Lockers(inFlightLocks, locks[j].account).CanLock(locks[j].writable)
      {
        var l := locks[i];
        if l.account in inFlightLocks && !inFlightLocks[l.account].CanLock(l.writable) {
          return false;
        }
        i := i + 1;
      }
      return true;
    }

    /** Takes the transaction's locks without looking for conflicts. */
    method LockAll(key: Key, ghost holders: set<Key>)
      requires key in txs && key !in holders && DistinctAccounts(txs[key].locks)
      requires Exact(inFlightLocks, holders, txs)
      modifies `inFlightLocks
      ensures inFlightLocks == WithLocks(old(inFlightLocks), key, txs[key].locks)
      ensures Exact(inFlightLocks, holders + {key}, txs)
    {
      var locks := txs[key].locks;
      var i := 0;
      while i < |locks|
        invariant 0 <= i <= |locks|
        invariant inFlightLocks == WithLocks(old(inFlightLocks), key, locks[..i])
      {
        var l := locks[i];
        var lockers := if l.account in inFlightLocks then inFlightLocks[l.account] else NO_LOCKERS;
        WithLocksAt(old(inFlightLocks), key, locks[..i], l.account);
        assert !lockers.Holds(key, l.writable);  // the set insert's assert
        inFlightLocks := inFlightLocks[l.account := lockers.Insert(key, l.writable)];
        assert locks[..i + 1][..i] == locks[..i];
        i := i + 1;
      }
      assert locks[..|locks|] == locks;
      LockKeepsExact(old(inFlightLocks), holders, txs, key);
    }

    /** Releases the transaction's locks; never finds an account without lockers, nor a
        lock it does not hold. */
    method UnlockAll(key: Key, ghost holders: set<Key>)
      requires key in txs && key in holders && DistinctAccounts(txs[key].locks)
      requires Exact(inFlightLocks, holders, txs)
      modifies `inFlightLocks
      ensures inFlightLocks == WithoutLocks(old(inFlightLocks), key, txs[key].locks)
      ensures Exact(inFlightLocks, holders - {key}, txs)
    {
      var locks := txs[key].locks;
      var i := 0;
      while i < |locks|
        invariant 0 <= i <= |locks|
        invariant inFlightLocks == WithoutLocks(old(inFlightLocks), key, locks[..i])
      {
        var l := locks[i];
        WithoutLocksAt(old(inFlightLocks), key, locks[..i], l.account);
        assert l == Lock(l.account, l.writable) && l in locks;
        assert key in Lockers(old(inFlightLocks), l.account).writers || key in Lockers(old(inFlightLocks), l.account).readers;
        assert l.account in inFlightLocks;  // the panic on an account with no lockers
        var lockers := inFlightLocks[l.account];
        assert lockers.Holds(key, l.writable);  // the set removal's assert
        var left := lockers.Remove(key, l.writable);
        if left.IsEmpty() {
          inFlightLocks := inFlightLocks - {l.account};
        } else {
          inFlightLocks := inFlightLocks[l.account := left];
        }
        assert locks[..i + 1][..i] == locks[..i];
        i := i + 1;
      }
      assert locks[..|locks|] == locks;
      UnlockKeepsExact(old(inFlightLocks), holders, txs, key);
    }

    // ---- Bridge calls ----

    method DropTransaction(key: Key)
      requires key in txs && key !in executingTx && Coupled()
      modifies `txs, `checks
      ensures View() == Drop(old(View()), key) && Coupled() && txs == old(txs) - {key}
    {
      checks := checks[MetaOf(key, txs[key]) := 0];
      txs := txs - {key};
      ExactFrame(inFlightLocks, executingTx, old(txs), txs);
    }

    /** Drops the lowest checked transaction. */
    method EvictLowestChecked()
      requires checkedTx != {} && First(checkedTx).key in txs && First(checkedTx).key !in executingTx && Coupled()
      modifies `checkedTx, `txs, `checks
      ensures View() == EvictChecked(old(View())) && Coupled()
    {
      var id := PeekFirst(checkedTx);
      checkedTx := checkedTx - {id};
      DropTransaction(id.key);
    }

    /** Inserts a transaction that passed its first check. A full checked side gives up its
        lowest transaction, even one higher than the newcomer; it fails when it has none. */
    method InsertFirstChecked(meta: PriorityId) returns (ok: bool)
      requires meta.key in txs && forall x | x in checkedTx :: x.key in txs && x.key !in executingTx && x.key != meta.key
      requires Coupled()
      modifies `checkedTx, `txs, `checks
      ensures ok <==> (PendingLen(old(View())) >= cfg.checkedCapacity ==> old(checkedTx) != {})
      ensures ok ==>
        && Coupled() && meta.key in txs
        && View() == EvictIfFull(old(View())).(checked := EvictIfFull(old(View())).checked + {meta})
      ensures var full := |old(checkedTx)| + |executingTx| + |deferredTx| >= cfg.checkedCapacity;
        && (ok <==> (full ==> old(checkedTx) != {}))
        && (ok && !full ==> checkedTx == old(checkedTx) + {meta} && txs == old(txs))
        && (ok && full ==> meta in checkedTx && LosesLowest(old(checkedTx), old(txs), checkedTx - {meta}, txs))
    {
      hide EvictChecked, First, Drop, Coupled, LosesLowest;
      if |checkedTx| + |executingTx| + |deferredTx| >= cfg.checkedCapacity {
        if checkedTx == {} {
          return false;  // the unwrap of the evicted transaction
        }
        FirstIsIn(checkedTx);
        EvictionTakesLowest(View());
        EvictLowestChecked();
        assert checkedTx + {meta} - {meta} == checkedTx;
      }
      checkedTx := checkedTx + {meta};
      ok := true;
    }

    // ---- Worker responses ----

    /** Why the check failed; the cases that are left cannot happen. */
    method FailureOf(rep: CheckResponse) returns (failure: CheckFailure)
      requires rep.AtMostOneFailure() && (rep.parsingFailed || rep.resolveFailed || rep.statusFailed)
      ensures match failure
        case ParseOrSanitize => rep.parsingFailed
        case AccountResolution => rep.resolveFailed
        case StatusCheck => rep.statusFailed
    {
      match (rep.parsingFailed, rep.resolveFailed, rep.statusFailed) {
        case (true, false, false) => failure := ParseOrSanitize;
        case (false, true, false) => failure := AccountResolution;
        case (false, false, true) => failure := StatusCheck;
        case _ => assert false;
      }
    }

    /** Handles the answer to a check, which the bridge takes off its queue. The bridge
        drops the transaction when told to. Fails when the eviction finds nothing. */
    method OnCheck(meta: PriorityId, rep: CheckResponse) returns (ok: bool, decision: TxDecision)
      requires Valid() && meta in checks && IsMeta(View(), meta) && rep.AtMostOneFailure()
      modifies `checkedTx, `txs, `checks
      ensures ok <==> Enabled(old(View()), CheckReply(meta, rep.Verdict()))
      ensures ok ==> Coupled() && meta.key in txs && (decision == Discard ==> meta.key !in executingTx)
      ensures ok ==> (if decision == Keep then View() else Drop(View(), meta.key)) == Apply(old(View()), CheckReply(meta, rep.Verdict()))
      ensures var failed := rep.parsingFailed || rep.resolveFailed || rep.statusFailed;
        var full := |old(checkedTx)| + |executingTx| + |deferredTx| >= cfg.checkedCapacity;
        if meta.key in executingTx || meta in deferredTx then
          ok && decision == Keep && checkedTx == old(checkedTx) && txs == old(txs)
        else if failed then
          ok && decision == Discard && checkedTx == old(checkedTx) - {meta} && txs == old(txs)
        else if meta in old(checkedTx) then
          ok && decision == Keep && checkedTx == old(checkedTx) && txs == old(txs)
        else if rep.keyFiltered then
          ok && decision == Discard && checkedTx == old(checkedTx) && txs == old(txs)
        else
          && (ok <==> (full ==> old(checkedTx) != {}))
          && (ok ==> decision == Keep && meta in checkedTx)
          && (ok && !full ==> checkedTx == old(checkedTx) + {meta} && txs == old(txs))
          && (ok && full ==> LosesLowest(old(checkedTx), old(txs), checkedTx - {meta}, txs))
    {
      hide Inv, Coupled, EvictIfFull, Apply, Drop, Enabled, LosesLowest, CheckResponse.Verdict;
      CheckIs(View(), meta, rep);
      checks := checks - multiset{meta};
      ok := true;

      if meta.key in executingTx || meta in deferredTx {
        // A recheck of something that executes or waits for the next slot decides nothing.
        decision := Keep;
      } else if rep.parsingFailed || rep.resolveFailed || rep.statusFailed {
        var failure := FailureOf(rep);
        checkedTx := checkedTx - {meta};
        decision := Discard;
      } else if meta in checkedTx {
        // A recheck that passed leaves the transaction where it is.
        decision := Keep;
      } else if rep.keyFiltered {
        decision := Discard;
      } else {
        ok := InsertFirstChecked(meta);
        decision := Keep;
      }
    }

    /** An execute message has come back: its executing mark, its compute units and its
        locks go. Neither the removal nor the subtraction can fail. */
    method Finish(meta: PriorityId)
      requires Valid() && meta in executes
      modifies `executingTx, `inFlightCus, `inFlightLocks, `executes, `cohort
      ensures View() == Finished(old(View()), meta) && Coupled()
      ensures executingTx == old(executingTx) - {meta.key} && inFlightCus + meta.cost == old(inFlightCus)
    {
      hide Inv, SumCost, Exact, DistinctAccounts, Known;
      BeforeExecute(View(), meta);
      UnlockAll(meta.key, executingTx);
      Uncount(meta);
    }

    method Uncount(meta: PriorityId)
      requires meta in executes && meta.key in executingTx && inFlightCus == SumCost(executes)
      modifies `executingTx, `inFlightCus, `executes, `cohort
      ensures View() == Finished(old(View()), meta) && inFlightCus == SumCost(executes)
      ensures executingTx == old(executingTx) - {meta.key} && inFlightCus + meta.cost == old(inFlightCus)
    {
      hide SumCost;
      assert meta.key in executingTx;  // the removal's assert
      SumCostRemove(executes, meta);
      assert inFlightCus >= meta.cost;  // the subtraction does not underflow
      executes := executes - multiset{meta};
      cohort := cohort - {meta.key};
      executingTx := executingTx - {meta.key};
      inFlightCus := inFlightCus - meta.cost;
    }

    /** An execute request that no worker ran. */
    method OnUnprocessed(meta: PriorityId) returns (decision: TxDecision)
      requires Valid() && meta in executes && IsMeta(View(), meta)
      modifies `executingTx, `inFlightCus, `inFlightLocks, `executes, `cohort, `checkedTx
      ensures Coupled() && meta.key in txs && (decision == Discard ==> meta.key !in executingTx)
      ensures Known(old(txs), old(checkedTx))
      ensures (if decision == Keep then View() else Drop(View(), meta.key)) == Protocol.OnExecute(old(View()), meta, Unprocessed)
      ensures executingTx == old(executingTx) - {meta.key} && inFlightCus + meta.cost == old(inFlightCus) && txs == old(txs)
      ensures meta.priority == 0xFFFF_FFFF_FFFF_FFFF ==> decision == Discard && checkedTx == old(checkedTx)
      ensures meta.priority < 0xFFFF_FFFF_FFFF_FFFF ==> decision == Keep && checkedTx == old(checkedTx) + {meta}
    {
      hide Inv;
      BeforeExecute(View(), meta);
      Finish(meta);
      if meta.priority == BUNDLE_MARKER {
        return Discard;
      }
      checkedTx := checkedTx + {meta};
      return Keep;
    }

    /** Handles the answer to an execute request. A retryable transaction goes back to the
        checked ones, or is deferred when this slot already tried it. */
    method OnExecute(meta: PriorityId, reason: Reason, executionSlot: Slot) returns (decision: TxDecision)
      requires Valid() && meta in executes && IsMeta(View(), meta)
      modifies `executingTx, `inFlightCus, `inFlightLocks, `executes, `cohort, `checkedTx, `deferredTx, `txs, `checks
      ensures Coupled() && (decision == Discard ==> meta.key in txs && meta.key !in executingTx)
      ensures Known(old(txs), old(checkedTx))
      ensures (if decision == Keep then View() else Drop(View(), meta.key))
           == Protocol.OnExecute(old(View()), meta, Executed(reason, executionSlot))
      ensures executingTx == old(executingTx) - {meta.key} && inFlightCus + meta.cost == old(inFlightCus)
      ensures meta.priority == 0xFFFF_FFFF_FFFF_FFFF || reason == Included || reason.OtherReason? ==>
        decision == Discard && checkedTx == old(checkedTx) && deferredTx == old(deferredTx) && txs == old(txs)
      ensures
        && meta.priority < 0xFFFF_FFFF_FFFF_FFFF
        && (|| reason == AccountInUse || reason == BankNotAvailable
            || reason == WouldExceedMaxBlockCostLimit || reason == WouldExceedMaxAccountCostLimit
            || reason == WouldExceedAccountDataBlockLimit || reason == WouldExceedMaxVoteCostLimit
            || reason == WouldExceedAccountDataTotalLimit)
        ==>
        var defers := executionSlot == slot && reason != AccountInUse;
        var checked := if defers then old(checkedTx) else old(checkedTx) + {meta};
        && decision == Keep
        && deferredTx == (if defers then old(deferredTx) + {meta} else old(deferredTx))
        && if |checked| + |executingTx| + |deferredTx| > cfg.checkedCapacity && checked != {}
           then LosesLowest(checked, old(txs), checkedTx, txs)
           else checkedTx == checked && txs == old(txs)
    {
      hide Inv, First, Finished, Drop, Protocol.OnExecute, EvictIfOver, IsRetryable, LosesLowest;
      BeforeExecute(View(), meta);
      OnExecuteCases(View(), meta, Executed(reason, executionSlot));
      Finish(meta);
      FinishedIs(old(View()), meta);

      RetryReasons(reason);

      // Bundles and tips get one attempt, and so does what no retry can help.
      if meta.priority == BUNDLE_MARKER || !IsRetryable(reason) {
        return Discard;
      }

      PutBack(meta, executionSlot == slot && reason != AccountInUse);
      return Keep;
    }

    /** What this slot has already tried waits for the next one. A lock conflict says
        nothing about the slot, so its transaction may go again at once. */
    method PutBack(meta: PriorityId, defers: bool)
      requires Coupled() && meta !in checkedTx && meta !in deferredTx
      requires forall x | x in checkedTx + {meta} :: x.key in txs && x.key !in executingTx
      modifies `checkedTx, `deferredTx, `txs, `checks
      ensures Coupled() && View() == EvictIfOver(Returned(old(View()), meta, defers))
      ensures
        var checked := if defers then old(checkedTx) else old(checkedTx) + {meta};
        && deferredTx == (if defers then old(deferredTx) + {meta} else old(deferredTx))
        && if |checked| + |executingTx| + |deferredTx| > cfg.checkedCapacity && checked != {}
           then LosesLowest(checked, old(txs), checkedTx, txs)
           else checkedTx == checked && txs == old(txs)
    {
      hide First, EvictChecked, Drop, LosesLowest;
      if defers {
        assert meta !in deferredTx;  // the insertion's assert
        deferredTx := deferredTx + {meta};
      } else {
        assert meta !in checkedTx;  // the insertion's assert
        checkedTx := checkedTx + {meta};
      }
      // Evict if over capacity.
      if |checkedTx| + |executingTx| + |deferredTx| > cfg.checkedCapacity && checkedTx != {} {
        FirstIsIn(checkedTx);
        EvictionTakesLowest(View());
        EvictLowestChecked();
      }
    }

    /** What the handler of a response decides. */
    method Decide(r: WorkerResponse) returns (ok: bool, decision: TxDecision)
      requires Valid() && Answers(View(), r)
      modifies `executingTx, `inFlightCus, `inFlightLocks, `executes, `cohort, `checkedTx, `deferredTx, `txs, `checks
      ensures ok <==> Enabled(old(View()), EventOf(r))
      ensures ok ==> Coupled() && (decision == Discard ==> r.meta.key in txs && r.meta.key !in executingTx)
      ensures ok ==>
        (if decision.Discard? then Drop(View(), r.meta.key) else View()) == Apply(old(View()), EventOf(r))
      ensures r.NotRun? ==>
        && ok
        && (r.meta.priority == 0xFFFF_FFFF_FFFF_FFFF ==> decision == Discard)
        && (r.meta.priority < 0xFFFF_FFFF_FFFF_FFFF ==> decision == Keep && r.meta in checkedTx)
      ensures r.Ran? ==>
        && ok
        && (r.meta.priority == 0xFFFF_FFFF_FFFF_FFFF || r.reason == Included || r.reason.OtherReason? ==> decision == Discard)
        && (r.meta.priority < 0xFFFF_FFFF_FFFF_FFFF && r.reason != Included && !r.reason.OtherReason? ==>
              decision == Keep && (r.meta in deferredTx <==> r.executionSlot == slot && r.reason != AccountInUse))
      ensures r.Checked? && r.meta.key !in executingTx && r.meta !in deferredTx ==>
        var failed := r.rep.parsingFailed || r.rep.resolveFailed || r.rep.statusFailed;
        && (failed || (r.rep.keyFiltered && r.meta !in old(checkedTx)) ==>
              ok && decision == Discard && r.meta !in checkedTx)
        && (ok && !failed && (!r.rep.keyFiltered || r.meta in old(checkedTx)) ==> decision == Keep && r.meta in checkedTx)
    {
      hide Inv, Protocol.OnCheck, Protocol.OnExecute, Coupled, Apply, Drop, Enabled, NeedsEviction, Known, IsMeta, LosesLowest;
      AnswerSucceedsIff(View(), r);
      ok := true;
      match r {
        case Checked(meta, rep) =>
          ok, decision := OnCheck(meta, rep);
        case Ran(meta, reason, executionSlot) =>
          ExecuteReplyIs(View(), meta, Executed(reason, executionSlot));
          BeforeExecute(View(), meta);
          RetryReasons(reason);
          decision := OnExecute(meta, reason, executionSlot);
        case NotRun(meta) =>
          ExecuteReplyIs(View(), meta, Unprocessed);
          decision := OnUnprocessed(meta);
      }
    }

    /** One response: the handler decides, and the bridge drops the transaction if told. */
    method Respond(r: WorkerResponse) returns (ok: bool)
      requires Valid() && Answers(View(), r)
      modifies `executingTx, `inFlightCus, `inFlightLocks, `executes, `cohort, `checkedTx, `deferredTx, `txs, `checks
      ensures ok <==> Enabled(old(View()), EventOf(r))
      ensures ok ==> Valid() && View() == Apply(old(View()), EventOf(r))
      ensures r.NotRun? ==>
        && ok
        && (r.meta.priority == 0xFFFF_FFFF_FFFF_FFFF ==> r.meta.key !in txs)
        && (r.meta.priority < 0xFFFF_FFFF_FFFF_FFFF ==> r.meta in checkedTx)
      ensures r.Ran? ==>
        && ok
        && (r.meta.priority == 0xFFFF_FFFF_FFFF_FFFF || r.reason == Included || r.reason.OtherReason? ==> r.meta.key !in txs)
        && (r.meta.priority < 0xFFFF_FFFF_FFFF_FFFF && r.reason != Included && !r.reason.OtherReason? ==>
              (r.meta in deferredTx <==> r.executionSlot == slot && r.reason != AccountInUse))
      ensures r.Checked? && r.meta.key !in executingTx && r.meta !in deferredTx ==>
        var failed := r.rep.parsingFailed || r.rep.resolveFailed || r.rep.statusFailed;
        && (failed || (r.rep.keyFiltered && r.meta !in old(checkedTx)) ==> ok && r.meta.key !in txs)
        && (ok && !failed && (!r.rep.keyFiltered || r.meta in old(checkedTx)) ==> r.meta in checkedTx)
    {
      hide Inv, Coupled, Apply, Enabled, Drop;
      var decision;
      ok, decision := Decide(r);
      if ok {
        if decision == Discard {
          DropTransaction(r.meta.key);
        }
        EventKeepsInv(old(View()), EventOf(r));
      }
    }

    /** Every response of every worker, in whatever order they come, up to one that fails. */
    method DrainWorkerResponses(responses: seq<WorkerResponse>) returns (ok: bool)
      requires Valid() && Deliverable(View(), responses)
      modifies `executingTx, `inFlightCus, `inFlightLocks, `executes, `cohort, `checkedTx, `deferredTx, `txs, `checks
      ensures ok <==> Possible(old(View()), Events(responses))
      ensures ok ==> Valid() && View() == Run(old(View()), Events(responses))
    {
      hide Inv, Apply, Enabled, Coupled;
      var i := 0;
      while i < |responses|
        invariant 0 <= i <= |responses|
        invariant Valid() && Deliverable(View(), responses[i..])
        invariant Possible(View(), Events(responses[i..])) <==> Possible(old(View()), Events(responses))
        invariant Possible(View(), Events(responses[i..])) ==>
          Run(View(), Events(responses[i..])) == Run(old(View()), Events(responses))
      {
        assert responses[i..][1..] == responses[i + 1..];
        ok := Respond(responses[i]);
        if !ok {
          return;
        }
        i := i + 1;
      }
      ok := true;
    }

    // ---- Ingestion ----

    /** Drops the lowest unchecked transaction. */
    method EvictLowestUnchecked()
      requires uncheckedTx != {} && First(uncheckedTx).key in txs && First(uncheckedTx).key !in executingTx && Coupled()
      modifies `uncheckedTx, `txs, `checks
      ensures old(First(uncheckedTx)).key in old(txs)
      ensures var w := old(View()); var m := First(w.unchecked);
        View() == Drop(w.(unchecked := w.unchecked - {m}), m.key)
      ensures Coupled()
    {
      var id := PeekFirst(uncheckedTx);
      uncheckedTx := uncheckedTx - {id};
      DropTransaction(id.key);
    }

    method InsertTransaction(key: Key, tx: Tx)
      requires key !in txs && Coupled()
      modifies `txs
      ensures txs == old(txs)[key := tx] && Coupled()
    {
      txs := txs[key := tx];
      ExactFrame(inFlightLocks, executingTx, old(txs), txs);
    }

    /** A transaction from the validator: stored when it scores and is not filtered. */
    method OnTpu(a: Arrival)
      requires Valid() && a.key !in txs && DistinctAccounts(a.locks)
      requires a.Accepted() ==> |uncheckedTx| < cfg.uncheckedCapacity
      modifies `uncheckedTx, `txs, `checks
      ensures Valid()
      ensures !a.Accepted() ==> View() == old(View())
      ensures a.Accepted() ==> Enabled(old(View()), Admit(a.key, a.Label()))
      ensures a.Accepted() ==> View() == Apply(old(View()), Admit(a.key, a.Label()))
      ensures |uncheckedTx| <= |old(uncheckedTx)| + Count(a.Accepted()) && txs.Keys <= old(txs).Keys + {a.key}
      ensures a.costReward.None? || a.filtered ==> uncheckedTx == old(uncheckedTx) && txs == old(txs)
      ensures a.costReward.Some? && !a.filtered ==>
        && Stored(a, txs, uncheckedTx)
        && uncheckedTx == old(uncheckedTx) + {PriorityId(txs[a.key].priority, a.costReward.value.0, a.key)}
        && txs == old(txs)[a.key := txs[a.key]]
    {
      hide Inv, Coupled, Apply, Enabled, Drop, IsPriority;
      ghost var w := View();
      NewKeyFacts(w, a.key);
      AdmissionIs(w, a);
      InsertTransaction(a.key, a.Label());
      if a.costReward.None? || a.filtered {
        DropTransaction(a.key);
      } else {
        uncheckedTx := uncheckedTx + {MetaOf(a.key, a.Label())};
        LabelIs(a);
        EventKeepsInv(w, Admit(a.key, a.Label()));
      }
    }

    lemma UncheckedIsKnown(key: Key)
      requires Valid() && key !in txs
      ensures forall m | m in uncheckedTx :: m.key != key
    {
    }

    /** A packet that is taken in pushes the lowest unchecked transaction out of a full
        queue; fails when a full queue holds none. */
    method MakeRoomFor(a: Arrival) returns (ok: bool, ghost before: seq<Event>)
      requires Valid()
      modifies `uncheckedTx, `txs, `checks
      ensures ok <==> !a.Accepted() || cfg.uncheckedCapacity > 0
      ensures !ok ==> !Possible(old(View()), PacketEvents(old(View()), a))
      ensures ok ==> Valid() && Possible(old(View()), before) && View() == Run(old(View()), before)
      ensures ok && !a.Accepted() ==> before == []
      ensures ok && a.Accepted() ==>
        && before + [Admit(a.key, a.Label())] == PacketEvents(old(View()), a)
        && |uncheckedTx| < cfg.uncheckedCapacity
      ensures ok ==>
        if a.Accepted() && |old(uncheckedTx)| == cfg.uncheckedCapacity
        then txs.Keys <= old(txs).Keys && LosesLowest(old(uncheckedTx), old(txs), uncheckedTx, txs)
        else uncheckedTx == old(uncheckedTx) && txs == old(txs)
    {
      hide Inv, Coupled, Apply, Enabled, Possible, Run, LosesLowest, PacketEvents, Arrival.Label;
      InvCapacity(View());
      NoStep(View());
      PacketEventsAre(View(), a);
      ok, before := true, [];
      if a.Accepted() && |uncheckedTx| == cfg.uncheckedCapacity {
        if uncheckedTx == {} {
          NothingToEvict(View(), a);
          return false, [];  // the unwrap of the evicted transaction
        }
        EvictOne();
        OneStep(old(View()), EvictUnchecked);
        before := [EvictUnchecked];
      }
    }

    /** A transaction from the block engine, which may push the lowest one out; fails when
        there is no room at all. */
    method OnPacket(a: Arrival) returns (ok: bool)
      requires Valid() && a.key !in txs && DistinctAccounts(a.locks)
      modifies `uncheckedTx, `txs, `checks
      ensures ok <==> Possible(old(View()), PacketEvents(old(View()), a))
      ensures ok <==> a.costReward.None? || a.filtered || cfg.uncheckedCapacity > 0
      ensures a.costReward.None? || a.filtered ==> uncheckedTx == old(uncheckedTx) && txs == old(txs)
      ensures ok && a.costReward.Some? && !a.filtered ==>
        && Stored(a, txs, uncheckedTx)
        && var rest := uncheckedTx - {PriorityId(txs[a.key].priority, a.costReward.value.0, a.key)};
        && (if |old(uncheckedTx)| == cfg.uncheckedCapacity then LosesLowest(old(uncheckedTx), old(txs), rest, txs - {a.key})
            else rest == old(uncheckedTx) && txs - {a.key} == old(txs))
      ensures ok ==> Valid() && View() == Run(old(View()), PacketEvents(old(View()), a))
    {
      hide Inv, Coupled, Apply, Enabled, Possible, Run, LosesLowest, Stored, PacketEvents, Arrival.Label;
      ghost var w := View();
      PacketEventsAre(w, a);
      NoStep(w);
      ghost var before;
      // The bridge's insert comes first in time; it commutes with the eviction.
      ok, before := MakeRoomFor(a);
      if ok {
        UncheckedIsKnown(a.key);
        ghost var kept, keptTxs := uncheckedTx, txs;
        OnTpu(a);
        if a.Accepted() {
          RunSnoc(w, before, Admit(a.key, a.Label()));
          assert uncheckedTx - {PriorityId(txs[a.key].priority, a.costReward.value.0, a.key)} == kept && txs - {a.key} == keptTxs;
        }
      }
    }

    lemma UncheckedAreOld(arrivals: seq<Arrival>)
      requires Valid() && FreshArrivals(arrivals, txs)
      ensures forall a, m | a in arrivals && m in uncheckedTx :: m.key != a.key
    {
    }

    /** Makes room for everything the validator may hand over now, then takes it in; fails
        when that is more than the queue can hold. */
    method DrainTpu(arrivals: seq<Arrival>, tpuLen: nat, maxCount: nat) returns (ok: bool)
      requires Valid() && FreshArrivals(arrivals, txs)
      requires |arrivals| <= tpuLen && |arrivals| <= maxCount
      modifies `uncheckedTx, `txs, `checks
      ensures ok <==> Possible(old(View()), TpuEvents(old(View()), arrivals, tpuLen, maxCount))
      ensures ok <==> tpuLen <= cfg.uncheckedCapacity || maxCount <= cfg.uncheckedCapacity
      ensures ok ==> Valid() && View() == Run(old(View()), TpuEvents(old(View()), arrivals, tpuLen, maxCount))
      ensures ok ==>
        var more := |old(uncheckedTx)| + if tpuLen < maxCount then tpuLen else maxCount;
        && |old(uncheckedTx) - uncheckedTx| == (if more > cfg.uncheckedCapacity then more - cfg.uncheckedCapacity else 0)
        && AllBelow(old(uncheckedTx) - uncheckedTx, old(uncheckedTx) * uncheckedTx)
        && ComeFrom(uncheckedTx - old(uncheckedTx), arrivals) && TakenIn(arrivals, txs, uncheckedTx)
    {
      hide Inv, Coupled, Apply, Enabled, Run, Possible, AllBelow, ComeFrom, TakenIn;
      ghost var w := View();
      var additional := if tpuLen < maxCount then tpuLen else maxCount;
      var shortfall := SatSub(|uncheckedTx| + additional, cfg.uncheckedCapacity);
      InvCapacity(w);
      RoomCanBeMadeIff(w, additional);
      ok := shortfall <= |uncheckedTx|;  // else an unwrap finds nothing
      if ok {
        UncheckedAreOld(arrivals);
        EvictUncheckedTimes(shortfall);
        ghost var kept := uncheckedTx;
        TakeArrivals(arrivals);
        WhatCame(w.unchecked, kept, uncheckedTx, arrivals);
        RunAppend(w, Repeat(EvictUnchecked, shortfall), Admissions(arrivals));
      } else if Possible(w, TpuEvents(w, arrivals, tpuLen, maxCount)) {
        SplitRun(w, Repeat(EvictUnchecked, shortfall), Admissions(arrivals));
      }
    }

    method EvictUncheckedTimes(n: nat)
      requires Valid() && n <= |uncheckedTx|
      modifies `uncheckedTx, `txs, `checks
      ensures Valid() && |uncheckedTx| + n == |old(uncheckedTx)| && txs.Keys <= old(txs).Keys
      ensures Possible(old(View()), Repeat(EvictUnchecked, n)) && View() == Run(old(View()), Repeat(EvictUnchecked, n))
      ensures uncheckedTx <= old(uncheckedTx) && AllBelow(old(uncheckedTx) - uncheckedTx, uncheckedTx)
    {
      hide Inv, Coupled, Apply, Enabled;
      ghost var w := View();
      var i := 0;
      while i < n
        invariant 0 <= i <= n && Valid()
        invariant Possible(w, Repeat(EvictUnchecked, i)) && View() == Run(w, Repeat(EvictUnchecked, i))
        invariant |uncheckedTx| + i == |old(uncheckedTx)| && txs.Keys <= old(txs).Keys
      {
        EvictOne();
        assert Repeat(EvictUnchecked, i + 1) == Repeat(EvictUnchecked, i) + [EvictUnchecked];
        RunSnoc(w, Repeat(EvictUnchecked, i), EvictUnchecked);
        i := i + 1;
      }
      EvictionsTakeTheLowest(w, n);
    }

    method TakeArrivals(arrivals: seq<Arrival>)
      requires Valid() && FreshArrivals(arrivals, txs) && |uncheckedTx| + |arrivals| <= cfg.uncheckedCapacity
      modifies `uncheckedTx, `txs, `checks
      ensures Valid()
      ensures Possible(old(View()), Admissions(arrivals)) && View() == Run(old(View()), Admissions(arrivals))
      ensures old(uncheckedTx) <= uncheckedTx
      ensures ComeFrom(uncheckedTx - old(uncheckedTx), arrivals) && TakenIn(arrivals, txs, uncheckedTx)
    {
      hide Inv, Coupled, Apply, Enabled, Run, Possible, Stored, ComeFrom, TakenIn, Arrival.Label;
      ghost var w := View();
      NoStep(w);
      NothingTaken(txs, uncheckedTx);
      assert uncheckedTx - uncheckedTx == {};
      var i := 0;
      while i < |arrivals|
        invariant 0 <= i <= |arrivals| && Valid()
        invariant Possible(w, Admissions(arrivals[..i])) && View() == Run(w, Admissions(arrivals[..i]))
        invariant |uncheckedTx| + |arrivals| <= cfg.uncheckedCapacity + i
        invariant forall j | i <= j < |arrivals| :: arrivals[j].key !in txs
        invariant old(uncheckedTx) <= uncheckedTx
        invariant ComeFrom(uncheckedTx - old(uncheckedTx), arrivals[..i]) && TakenIn(arrivals[..i], txs, uncheckedTx)
      {
        assert arrivals[i] in arrivals;
        ghost var unchecked, txs0 := uncheckedTx, txs;
        OnTpu(arrivals[i]);
        OneMoreCame(arrivals, i, unchecked - old(uncheckedTx), uncheckedTx - old(uncheckedTx));
        OneMoreTaken(arrivals, i, txs0, unchecked, txs, uncheckedTx);
        assert arrivals[..i + 1][..i] == arrivals[..i];
        if arrivals[i].Accepted() {
          RunSnoc(w, Admissions(arrivals[..i]), Admit(arrivals[i].key, arrivals[i].Label()));
        }
        i := i + 1;
      }
      assert arrivals[..|arrivals|] == arrivals;
    }

    method EvictOne()
      requires Valid() && uncheckedTx != {}
      modifies `uncheckedTx, `txs, `checks
      ensures Valid() && Enabled(old(View()), EvictUnchecked) && View() == Apply(old(View()), EvictUnchecked)
      ensures |uncheckedTx| + 1 == |old(uncheckedTx)| && txs.Keys <= old(txs).Keys
      ensures LosesLowest(old(uncheckedTx), old(txs), uncheckedTx, txs)
    {
      hide Inv;
      UncheckedFacts(View());
      assert IsFirst(uncheckedTx, First(uncheckedTx));
      EvictLowestUnchecked();
      EventKeepsInv(old(View()), EvictUnchecked);
    }

    // ---- Bundles ----

    method DropKeys(keys: seq<Key>)
      requires DistinctKeys(keys) && Coupled()
      requires forall k | k in keys :: k in txs && k !in executingTx
      requires forall m | m in checks :: m.key !in keys
      modifies `txs, `checks
      ensures txs == old(txs) - KeySet(keys) && checks == old(checks) && Coupled()
    {
      var i := 0;
      while i < |keys|
        invariant 0 <= i <= |keys| && Coupled()
        invariant txs == old(txs) - KeySet(keys[..i]) && checks == old(checks)
      {
        assert keys[i] !in KeySet(keys[..i]);
        DropTransaction(keys[i]);
        assert KeySet(keys[..i + 1]) == KeySet(keys[..i]) + {keys[i]};
        i := i + 1;
      }
      assert keys[..|keys|] == keys;
    }

    /** Drops a waiting bundle and all of its transactions. */
    method EvictBundle(b: BundleId)
      requires Valid() && b in bundles
      modifies `bundles, `txs, `checks
      ensures Valid() && View() == Apply(old(View()), DropBundle(b))
    {
      hide Inv;
      BundleFacts(View(), b);
      bundles := bundles - {b};
      DropKeys(b.keys);
      EventKeepsInv(old(View()), DropBundle(b));
    }

    /** The bridge holds what it held, plus the transactions inserted so far. */
    ghost predicate Inserting(before: map<Key, Tx>, keys: seq<Key>, added: map<Key, Tx>)
      reads `inFlightLocks, `executingTx, `txs, `inFlightCus, `executes
    {
      && DistinctKeys(keys) && added.Keys == KeySet(keys) && added.Keys !! before.Keys
      && executingTx <= before.Keys && txs == before + added && Coupled()
    }

    method InsertPacket(p: Packet, keys: seq<Key>, ghost before: map<Key, Tx>, ghost added: map<Key, Tx>)
      requires Inserting(before, keys, added) && p.key !in before && p.key !in keys
      modifies `txs
      ensures Inserting(before, keys + [p.key], added[p.key := Tx(p.locks, BUNDLE_MARKER, 0)])
    {
      hide Coupled;
      assert p.key !in KeySet(keys);
      InsertTransaction(p.key, Tx(p.locks, BUNDLE_MARKER, 0));
      AddOneMore(before, added, p.key, Tx(p.locks, BUNDLE_MARKER, 0));
      assert KeySet(keys + [p.key]) == KeySet(keys) + {p.key};
    }

    /** Takes the inserted transactions out again. */
    method Rollback(keys: seq<Key>, ghost before: map<Key, Tx>, ghost added: map<Key, Tx>)
      requires Inserting(before, keys, added)
      requires forall m | m in checks :: m.key in before
      modifies `txs, `checks
      ensures txs == before && checks == old(checks) && Coupled()
    {
      hide Coupled;
      AddedThenRemoved(before, added);
      forall k | k in keys ensures k in added {
        assert k in KeySet(keys);
      }
      DropKeys(keys);
    }

    method TakePacket(packets: seq<Packet>, i: nat, keys: seq<Key>, cost: nat, reward: nat,
                      ghost before: map<Key, Tx>, ghost added: map<Key, Tx>)
      returns (ok: bool, keys': seq<Key>, cost': nat, reward': nat, ghost added': map<Key, Tx>)
      requires i < |packets| && FreshPackets(packets, before)
      requires Collected(packets, i, true, keys, cost, reward, added) && Inserting(before, keys, added)
      modifies `txs
      ensures Collected(packets, i + 1, ok, keys', cost', reward', added') && Inserting(before, keys', added')
    {
      hide Coupled, Inserting, Collected, FreshPackets;
      var p := packets[i];
      CollectedStep(packets, before, i, keys, cost, reward, added);
      ok, keys', cost', reward', added' := false, keys, cost, reward, added;
      if p.inserted {
        InsertPacket(p, keys, before, added);
        keys' := keys + [p.key];
        added' := added[p.key := Tx(p.locks, BUNDLE_MARKER, 0)];
        if p.costReward.Some? {
          cost' := cost + p.costReward.value.0;
          reward' := reward + p.costReward.value.1 + p.tip;
          ok := true;
        }
      }
    }

    /** Inserts a bundle's transactions one by one, and takes them all out again at the
        first one that cannot be inserted or scored. */
    method InsertPackets(packets: seq<Packet>)
      returns (ok: bool, keys: seq<Key>, totalCost: nat, totalReward: nat)
      requires Coupled() && FreshPackets(packets, txs) && executingTx <= txs.Keys
      requires forall m | m in checks :: m.key in txs
      modifies `txs, `checks
      ensures ok <==> forall j | 0 <= j < |packets| :: packets[j].inserted && packets[j].costReward.Some?
      ensures Coupled() && checks == old(checks)
      ensures !ok ==> txs == old(txs)
      ensures ok ==> keys == KeysOf(packets) && totalCost == TotalCost(packets) && totalReward == TotalReward(packets)
      ensures ok ==> Inserting(old(txs), keys, BundleLabels(packets, 0))
    {
      keys, totalCost, totalReward, ok := [], 0, 0, true;
      ghost var added: map<Key, Tx> := map[];
      assert Inserting(txs, keys, added);
      assert Collected(packets, 0, ok, keys, totalCost, totalReward, added);
      hide Coupled, Inserting, Collected, FreshPackets;
      var i := 0;
      while ok && i < |packets|
        invariant 0 <= i <= |packets| && (ok || i > 0)
        invariant Collected(packets, i, ok, keys, totalCost, totalReward, added)
        invariant Inserting(old(txs), keys, added) && checks == old(checks)
      {
        ok, keys, totalCost, totalReward, added := TakePacket(packets, i, keys, totalCost, totalReward, old(txs), added);
        i := i + 1;
      }
      CollectedEnd(packets, i, ok, keys, totalCost, totalReward, added);
      InsertingIsCoupled(old(txs), keys, added);
      if !ok {
        Rollback(keys, old(txs), added);
      }
    }

    lemma InsertingIsCoupled(before: map<Key, Tx>, keys: seq<Key>, added: map<Key, Tx>)
      requires Inserting(before, keys, added)
      ensures Coupled() && txs == before + added
    {
    }

    /** Evicts the lowest priority bundle if at capacity, with new transactions inserted. */
    method MakeRoomForBundle(ghost w: World, ghost added: map<Key, Tx>)
      requires Inv(w) && View() == w.(txs := w.txs + added) && Coupled() && w.txs.Keys !! added.Keys
      modifies `bundles, `txs, `checks
      ensures Coupled() && added.Keys <= txs.Keys && RoomForBundle(w).txs.Keys <= w.txs.Keys
      ensures View() == RoomForBundle(w).(txs := RoomForBundle(w).txs + added)
    {
      hide Inv, Coupled;
      if |bundles| == cfg.bundleCapacity && bundles != {} {
        var evicted := PeekFirstBundle(bundles);
        BundleFacts(w, evicted);
        bundles := bundles - {evicted};
        DropKeys(evicted.keys);
        RemoveFromFirst(w.txs, added, KeySet(evicted.keys));
      }
    }

    /** Makes room for the inserted bundle and stores it. */
    method StoreBundle(packets: seq<Packet>, keys: seq<Key>, priority: nat, totalCost: nat, now: nat, ghost w: World)
      requires Inv(w) && packets != [] && FreshPackets(packets, w.txs)
      requires View() == w.(txs := w.txs + BundleLabels(packets, 0)) && Coupled()
      requires keys == KeysOf(packets) && BundleOf(packets, now) == BundleId(priority, totalCost, now, keys)
      modifies `bundles, `txs, `checks
      ensures Coupled()
      ensures View() == (
        var w1 := RoomForBundle(w);
        w1.(txs := w1.txs + BundleLabels(packets, TotalCost(packets)), bundles := w1.bundles + {BundleOf(packets, now)}))
    {
      hide Inv, Coupled, RoomForBundle;
      CostLabelled(packets, totalCost);
      LabelsAreNew(packets, w.txs);
      MakeRoomForBundle(w, BundleLabels(packets, 0));
      // The message of the first transaction will carry the cost, known only now.
      var first := Tx(packets[0].locks, BUNDLE_MARKER, totalCost);
      AddOneMore(RoomForBundle(w).txs, BundleLabels(packets, 0), packets[0].key, first);
      Relabel(keys[0], first);
      bundles := bundles + {BundleId(priority, totalCost, now, keys)};
    }

    method Relabel(key: Key, tx: Tx)
      requires key in txs && txs[key].locks == tx.locks && Coupled()
      modifies `txs
      ensures txs == old(txs)[key := tx] && Coupled()
    {
      txs := txs[key := tx];
      ExactFrame(inFlightLocks, executingTx, old(txs), txs);
    }

    /** A bundle from the block engine: all of it, or none. Fails on an accepted bundle
        without transactions, and when there is no room for any bundle. */
    method OnBundle(packets: seq<Packet>, now: nat) returns (ok: bool)
      requires Valid() && FreshPackets(packets, txs)
      modifies `bundles, `txs, `checks
      ensures ok <==> Possible(old(View()), BundleEvents(old(View()), packets, now))
      ensures ok ==> Valid() && View() == Run(old(View()), BundleEvents(old(View()), packets, now))
      ensures (exists i :: 0 <= i < |packets| && (!packets[i].inserted || packets[i].costReward.None? || packets[i].filtered)) ==>
        ok && bundles == old(bundles) && txs == old(txs)
      ensures (forall i | 0 <= i < |packets| :: packets[i].inserted && packets[i].costReward.Some? && !packets[i].filtered) ==>
        (ok <==> packets != [] && cfg.bundleCapacity > 0)
      ensures ok && (forall i | 0 <= i < |packets| :: packets[i].inserted && packets[i].costReward.Some? && !packets[i].filtered) ==>
        exists b | b in bundles ::
          && Carries(b, packets, now, txs)
          && (if |old(bundles)| == cfg.bundleCapacity then LosesLowestBundle(old(bundles), bundles - {b}, txs)
              else bundles == old(bundles) + {b})
          && var cost, reward := Sum(Costs(packets)), Sum(RewardsAndTips(packets));
             IsQuotient(b.priority,
                        if reward * 1_000_000 <= 0xFFFF_FFFF_FFFF_FFFF then reward * 1_000_000 else 0xFFFF_FFFF_FFFF_FFFF,
                        if cost > 1 then cost else 1)
    {
      hide Inv, Coupled, Apply, Enabled, Run, Possible, BundleLabels, TotalCost, TotalReward, RoomForBundle, Carries, LosesLowestBundle,
        IsQuotient, Costs, RewardsAndTips, Sum, FreshPackets;
      ghost var w := View();
      NoStep(w);
      KeyFacts(w);
      InvCapacity(w);
      var inserted, keys, totalCost, totalReward := InsertPackets(packets);
      if !inserted {
        return true;
      }
      if exists i :: 0 <= i < |packets| && packets[i].filtered {
        Rollback(keys, w.txs, BundleLabels(packets, 0));
        return true;
      }
      if keys == [] || (|bundles| == cfg.bundleCapacity && bundles == {}) {
        BundleFails(w, packets, now);
        return false;  // the index of the first key, or the unwrap of the evicted bundle
      }
      var priority := SatMul(totalReward, PRIORITY_MULTIPLIER) / (if totalCost > 1 then totalCost else 1);
      StoreBundle(packets, keys, priority, totalCost, now, w);
      BundleAdmitted(w, packets, now);
      StoredBundleIs(w, packets, now);
      ok := true;
    }

    lemma StoredBundleIs(w: World, packets: seq<Packet>, now: nat)
      requires Inv(w) && FreshPackets(packets, w.txs) && packets != [] && w.cfg == cfg && cfg.bundleCapacity > 0
      requires View() == (
        var w1 := RoomForBundle(w);
        w1.(txs := w1.txs + BundleLabels(packets, TotalCost(packets)), bundles := w1.bundles + {BundleOf(packets, now)}))
      ensures var b := BundleOf(packets, now);
        && b in bundles
        && Carries(b, packets, now, txs)
        && (if |w.bundles| == cfg.bundleCapacity then LosesLowestBundle(w.bundles, bundles - {b}, txs) else bundles == w.bundles + {b})
        && var cost, reward := Sum(Costs(packets)), Sum(RewardsAndTips(packets));
           IsQuotient(b.priority,
                      if reward * 1_000_000 <= 0xFFFF_FFFF_FFFF_FFFF then reward * 1_000_000 else 0xFFFF_FFFF_FFFF_FFFF,
                      if cost > 1 then cost else 1)
    {
      BundlePriorityIs(packets, now);
      BundleCarries(packets, now, RoomForBundle(w).txs);
      NewBundleIsNew(w, packets, now);
      hide Inv, BundleLabels, Carries, LosesLowestBundle, IsQuotient, FreshPackets, BundleOf;
      if |w.bundles| == cfg.bundleCapacity {
        RoomTakesLowest(w, packets);
        assert RoomForBundle(w).bundles <= w.bundles;
        assert bundles - {BundleOf(packets, now)} == RoomForBundle(w).bundles;
      }
    }

    /** Drops every bundle older than the expiry. */
    method DropExpiredBundles(now: nat) returns (ghost trace: seq<Event>)
      requires Valid()
      modifies `bundles, `txs, `checks
      ensures Valid() && Possible(old(View()), trace) && View() == Run(old(View()), trace)
      ensures forall e | e in trace :: e.DropBundle?
      ensures bundles == set b | b in old(bundles) && SatSub(now, b.receivedAt) <= bundleExpiry
      ensures bundles == set b | b in old(bundles) && now <= b.receivedAt + bundleExpiry
    {
      hide Inv, Apply, Enabled, Coupled;
      var expired := set b | b in bundles && SatSub(now, b.receivedAt) > bundleExpiry;
      trace := DropBundles(expired);
    }

    method DropBundles(expired: set<BundleId>) returns (ghost trace: seq<Event>)
      requires Valid() && expired <= bundles
      modifies `bundles, `txs, `checks
      ensures Valid() && Possible(old(View()), trace) && View() == Run(old(View()), trace)
      ensures forall e | e in trace :: e.DropBundle?
      ensures bundles == old(bundles) - expired
    {
      hide Inv, Apply, Enabled, Coupled, Run, Possible;
      ghost var w := View();
      var left := expired;
      trace := [];
      NoStep(w);
      while left != {}
        invariant left <= expired <= old(bundles) && bundles == old(bundles) - (expired - left)
        invariant Valid() && Possible(w, trace) && View() == Run(w, trace)
        invariant forall e | e in trace :: e.DropBundle?
        decreases |left|
      {
        var b :| b in left;
        left := left - {b};
        DropBundleIs(View(), b);
        EvictBundle(b);
        trace := SnocDrop(w, trace, b);
      }
    }

    // ---- Check scheduling ----

    /** The next transaction to check: the top unchecked one, else the next one the
        recheck cursor finds. Its message joins those the check worker has to answer. */
    method PopNext() returns (r: Option<PriorityId>)
      requires Valid()
      modifies `uncheckedTx, `nextRecheck, `checks
      ensures Valid() && r == PopMeta(old(View())) && View() == Popped(old(View()))
    {
      hide Inv, Coupled, Popped, PopMeta;
      ghost var w := View();
      OnePop(w);
      RunKeepsInv(w, PopEvents(w));
      if uncheckedTx != {} {
        r := PopUnchecked();
      } else {
        r := PopRecheck();
      }
    }

    method PopUnchecked() returns (r: Option<PriorityId>)
      requires uncheckedTx != {}
      modifies `uncheckedTx, `checks
      ensures r == PopMeta(old(View())) && View() == Popped(old(View()))
    {
      var id := PeekLast(uncheckedTx);
      uncheckedTx := uncheckedTx - {id};
      checks := checks + multiset{id};
      r := Some(id);
    }

    /** Moves the cursor down to the next transaction that is still checked. */
    method PopRecheck() returns (r: Option<PriorityId>)
      requires Inv(View()) && uncheckedTx == {}
      modifies `nextRecheck, `checks
      ensures r == PopMeta(old(View())) && View() == Popped(old(View()))
    {
      hide Inv;
      ghost var w := View();
      CheckedFacts(w);
      while nextRecheck.Some?
        invariant View() == w.(cursor := nextRecheck)
        invariant NextRecheck(View()) == NextRecheck(w)
        decreases Ahead(View())
      {
        var curr := nextRecheck.value;
        ghost var before := View();
        CursorStep(before);
        nextRecheck := PeekBelow(checkedTx, curr);
        // Skip if the transaction was removed from the checked ones.
        if curr in checkedTx && curr.key !in executingTx {
          checks := checks + multiset{curr};
          return Some(curr);
        }
      }
      r := None;
    }

    /** Fills the check worker's queue, 64 transactions a message. */
    method ScheduleChecks(queued: nat, free: nat) returns (batches: seq<seq<PriorityId>>)
      requires Valid()
      modifies `uncheckedTx, `nextRecheck, `checks, `scheduleBatch
      ensures Valid()
      ensures var room := if SatSub(maxCheckBatches, queued) < free then SatSub(maxCheckBatches, queued) else free;
        && |batches| <= room
        && Flat(batches) == DrainedMetas(old(View()), BATCH_SIZE * room)
        && View() == Drained(old(View()), BATCH_SIZE * room)
      ensures forall batch | batch in batches :: 0 < |batch| <= BATCH_SIZE
    {
      hide Inv, Popped, PopMeta, Drained, DrainedMetas;
      ghost var w := View();
      ghost var room := if SatSub(maxCheckBatches, queued) < free then SatSub(maxCheckBatches, queued) else free;
      var len, rem := queued, free;
      batches := [];
      DrainedNone(w);
      while len < maxCheckBatches && rem > 0
        invariant queued <= len && rem <= free && len - queued == free - rem == |batches| <= room
        invariant Valid()
        invariant View() == Drained(w, BATCH_SIZE * |batches|) && Flat(batches) == DrainedMetas(w, BATCH_SIZE * |batches|)
        invariant forall batch | batch in batches :: 0 < |batch| <= BATCH_SIZE
        decreases rem
      {
        ghost var done := BATCH_SIZE * |batches|;
        ghost var w1 := View();
        BuildCheckBatch();
        DrainedSplits(w, done, BATCH_SIZE);
        if scheduleBatch == [] {
          DrainedSplits(w1, BATCH_SIZE, 0);
          ExhaustedStays(View(), BATCH_SIZE * (room - |batches| - 1));
          DrainedSplits(w, done + BATCH_SIZE, BATCH_SIZE * (room - |batches| - 1));
          assert done + BATCH_SIZE + BATCH_SIZE * (room - |batches| - 1) == BATCH_SIZE * room;
          return;
        }
        batches := batches + [scheduleBatch];
        len, rem := len + 1, rem - 1;
      }
    }

    /** Pops up to 64 transactions to check. */
    method BuildCheckBatch()
      requires Valid()
      modifies `uncheckedTx, `nextRecheck, `checks, `scheduleBatch
      ensures Valid() && View() == Drained(old(View()), BATCH_SIZE)
      ensures scheduleBatch == DrainedMetas(old(View()), BATCH_SIZE) && |scheduleBatch| <= BATCH_SIZE
    {
      hide Inv, Coupled, Popped, PopMeta, Drained, DrainedMetas;
      ghost var w := View();
      scheduleBatch := [];
      var i := 0;
      while i < BATCH_SIZE
        invariant 0 <= i <= BATCH_SIZE && |scheduleBatch| == i && Valid()
        invariant Drained(View(), BATCH_SIZE - i) == Drained(w, BATCH_SIZE)
        invariant scheduleBatch + DrainedMetas(View(), BATCH_SIZE - i) == DrainedMetas(w, BATCH_SIZE)
      {
        ghost var w1 := View();
        DrainedStep(w1, BATCH_SIZE - i);
        var next := PopNext();
        if next.None? {
          return;
        }
        scheduleBatch := scheduleBatch + [next.value];
        i := i + 1;
      }
      DrainedNone(View());
    }

    // ---- Execution scheduling ----

    /** The candidate's message is out and its locks are taken; only the executing marks
        are missing. */
    ghost predicate SentOff(w: World, c: Candidate)
      reads this
    {
      && View() == Start(w, c).(executing := w.executing)
      && Exact(inFlightLocks, w.executing + KeySet(c.Keys()), txs)
      && inFlightCus == SumCost(executes)
      && scheduleBatch == c.Batch()
    }

    /** Tries to schedule the top transaction. An empty `scheduleBatch` means it did not
        fit the budget or the locks. */
    method TryScheduleTransaction(budget: nat) returns (left: nat)
      requires Valid() && checkedTx != {} && scheduleBatch == []
      modifies `inFlightLocks, `scheduleBatch, `executes, `cohort, `inFlightCus, `checkedTx
      ensures var w := old(View()); var c := Single(Last(w.checked));
        if scheduleBatch == [] then Valid() && View() == w && left == budget && Blocked(w, c, budget)
        else
          && SentOff(w, c) && left + c.Cost() == budget && inFlightCus == old(inFlightCus) + c.Cost()
          && c.id.key in w.txs && Free(w, w.txs[c.id.key].locks)
    {
      hide Inv, Free, SentOff, Exact, DistinctAccounts, Last, CanLockAll;
      ghost var w := View();
      CheckedFacts(w);
      var tx := PeekLast(checkedTx);
      left := budget;

      // Nothing has been taken yet, so both ways out leave the state as it was.
      if tx.cost > budget {
        return;
      }

      // Check if its locks conflict with any pre-existing locks.
      var ok := CanLock(tx.key);
      CanLockIsFree(inFlightLocks, w, txs[tx.key].locks);
      if !ok {
        assert tx.key in Single(tx).Keys();
        return;
      }

      left := budget - tx.cost;
      StartTransaction(tx);
    }

    /** Takes the transaction's locks and sends it. */
    method StartTransaction(tx: PriorityId)
      requires Valid() && tx in checkedTx && scheduleBatch == []
      modifies `inFlightLocks, `scheduleBatch, `executes, `cohort, `inFlightCus, `checkedTx
      ensures SentOff(old(View()), Single(tx)) && scheduleBatch != [] && inFlightCus == old(inFlightCus) + tx.cost
    {
      hide Inv, Start, Exact, SumCost, DistinctAccounts, Together;
      ghost var w := View();
      CheckedFacts(w);
      LockAll(tx.key, executingTx);
      scheduleBatch := [tx];
      executes := executes + multiset{tx};
      cohort := cohort + Together({tx.key});
      inFlightCus := inFlightCus + tx.cost;
      checkedTx := checkedTx - {tx};
      SumCostAdd(w.executes, tx);
      StartSingleIs(w, tx);
      assert KeySet([tx.key]) == {tx.key};
    }

    /** Tries to schedule the top bundle, all of it or none. */
    method TryScheduleBundle(budget: nat) returns (left: nat)
      requires Valid() && bundles != {} && scheduleBatch == []
      modifies `inFlightLocks, `scheduleBatch, `executes, `cohort, `inFlightCus, `bundles
      ensures var w := old(View()); var c := Pack(LastBundle(w.bundles));
        if scheduleBatch == [] then Valid() && View() == w && left == budget && Blocked(w, c, budget)
        else
          && SentOff(w, c) && left + c.Cost() == budget && inFlightCus == old(inFlightCus) + c.Cost()
          && forall k | k in c.Keys() :: k in w.txs && Free(w, w.txs[k].locks)
    {
      hide Inv, Free, SentOff, Exact, DistinctAccounts;
      ghost var w := View();
      var bundle := PeekLastBundle(bundles);
      WaitingBundleFacts(w, bundle);
      left := budget;

      // Nothing has been taken yet, so both ways out leave the state as it was.
      if bundle.cost > budget {
        return;
      }

      // Only other executing transactions count; members may conflict with each other.
      var ok := CanLockBundle(bundle.keys);
      if !ok {
        assert Pack(bundle).Keys() == bundle.keys;
        return;
      }

      left := budget - bundle.cost;
      StartBundle(bundle);
    }

    /** Takes the bundle's locks, whose owners may overlap each other, and sends it. */
    method StartBundle(bundle: BundleId)
      requires Valid() && bundle in bundles && scheduleBatch == []
      modifies `inFlightLocks, `scheduleBatch, `executes, `cohort, `inFlightCus, `bundles
      ensures SentOff(old(View()), Pack(bundle)) && scheduleBatch != [] && inFlightCus == old(inFlightCus) + bundle.cost
    {
      hide Inv, Start, Exact, SumCost, DistinctAccounts;
      ghost var w := View();
      WaitingBundleFacts(w, bundle);
      LockBundle(bundle.keys);
      scheduleBatch := BundleBatch(bundle);
      executes := executes + multiset(BundleBatch(bundle));
      cohort := cohort + Together(KeySet(bundle.keys));
      inFlightCus := inFlightCus + bundle.cost;
      bundles := bundles - {bundle};
      SumCostBatch(w.executes, Pack(bundle));
      StartPackIs(w, bundle);
    }

    method CanLockBundle(keys: seq<Key>) returns (ok: bool)
      requires Coupled() && forall k | k in keys :: k in txs
      ensures ok <==> forall k | k in keys :: Free(View(), txs[k].locks)
    {
      hide Free, Exact;
      var i := 0;
      while i < |keys|
        invariant 0 <= i <= |keys|
        invariant forall j | 0 <= j < i :: Free(View(), txs[keys[j]].locks)
      {
        ok := CanLock(keys[i]);
        CanLockIsFree(inFlightLocks, View(), txs[keys[i]].locks);
        if !ok {
          return;
        }
        i := i + 1;
      }
      ok := true;
    }

    method LockBundle(keys: seq<Key>)
      requires DistinctKeys(keys) && Exact(inFlightLocks, executingTx, txs)
      requires forall k | k in keys :: k in txs && k !in executingTx && DistinctAccounts(txs[k].locks)
      modifies `inFlightLocks
      ensures Exact(inFlightLocks, executingTx + KeySet(keys), txs)
    {
      hide Exact, DistinctAccounts;
      var i := 0;
      assert executingTx + KeySet(keys[..0]) == executingTx;
      while i < |keys|
        invariant 0 <= i <= |keys| && Exact(inFlightLocks, executingTx + KeySet(keys[..i]), txs)
      {
        assert keys[i] !in KeySet(keys[..i]);
        LockAll(keys[i], executingTx + KeySet(keys[..i]));
        assert executingTx + KeySet(keys[..i + 1]) == executingTx + KeySet(keys[..i]) + {keys[i]};
        i := i + 1;
      }
      assert keys[..|keys|] == keys;
    }

    /** Marks everything in the batch as executing. */
    method MarkExecuting(ghost w: World, ghost c: Candidate)
      requires SentOff(w, c) && Enabled(w, StartHead) && Head(w.checked, w.bundles) == Some(c) && Inv(w)
      modifies `executingTx
      ensures Valid() && View() == Apply(w, StartHead) && scheduleBatch == c.Batch()
    {
      hide Inv, Exact, SumCost, Apply, Enabled, Head, InFlightCus, Together, Candidate.Keys, Candidate.Batch;
      CandidateFacts(w, c);
      var i := 0;
      while i < |scheduleBatch|
        invariant 0 <= i <= |scheduleBatch|
        invariant executingTx == w.executing + KeySet(c.Keys()[..i])
      {
        assert scheduleBatch[i].key == c.Keys()[i];
        assert c.Keys()[i] !in KeySet(c.Keys()[..i]);
        assert scheduleBatch[i].key !in executingTx;  // the insertion's assert
        executingTx := executingTx + {scheduleBatch[i].key};
        assert KeySet(c.Keys()[..i + 1]) == KeySet(c.Keys()[..i]) + {c.Keys()[i]};
        i := i + 1;
      }
      assert c.Keys()[..|c.Keys()|] == c.Keys();
      EventKeepsInv(w, StartHead);
      StartIs(w, c);
    }

    /** Picks the better of the top transaction and the top bundle, ties to the
        transaction, and starts it if it fits. */
    method ScheduleHead(budget: nat) returns (left: nat, sent: bool)
      requires Valid() && (checkedTx != {} || bundles != {}) && inFlightCus + budget <= MAX_BLOCK_UNITS
      modifies `inFlightLocks, `scheduleBatch, `executes, `cohort, `inFlightCus, `checkedTx, `bundles, `executingTx
      ensures Valid() && Head(old(checkedTx), old(bundles)).Some?
      ensures var w := old(View()); var c := Head(w.checked, w.bundles).value;
        if sent then
          && Enabled(w, StartHead) && View() == Apply(w, StartHead) && scheduleBatch == c.Batch() && c.Keys() != []
          && left + c.Cost() == budget && inFlightCus == old(inFlightCus) + c.Cost()
        else View() == w && left == budget && Blocked(w, c, budget)
    {
      hide Inv, Free, Blocked, SentOff, Apply, Enabled;
      ghost var w := View();
      HeadIs(w);
      scheduleBatch := [];
      var txFirst := checkedTx != {};
      if checkedTx != {} && bundles != {} {
        var tx := PeekLast(checkedTx);
        var bundle := PeekLastBundle(bundles);
        txFirst := tx.priority >= bundle.priority;
      }
      if txFirst {
        left := TryScheduleTransaction(budget);
      } else {
        left := TryScheduleBundle(budget);
      }
      sent := scheduleBatch != [];
      if sent {
        ghost var c := Head(w.checked, w.bundles).value;
        CandidateFacts(w, c);
        HeadMayStart(w, c);
        MarkExecuting(w, c);
      }
    }

    /** One batch per idle execute worker, as long as the head fits the budget and the
        locks: the batches are the first ones of the merge, they keep the budget, and they
        stop only when workers, budget or queue run out, or the head is blocked. */
    method ScheduleExecute(slotProgress: nat, remainingCostUnits: nat, idle: seq<bool>) returns (sent: seq<Sent>, ghost end: nat)
      requires Valid() && |idle| >= EXECUTE_WORKER_START
      modifies `inFlightLocks, `scheduleBatch, `executes, `cohort, `inFlightCus, `checkedTx, `bundles, `executingTx
      ensures Valid()
      ensures Progress(old(View()), View(), sent, idle, end, BudgetLimit(slotProgress, blockFillCutoff), UsedUnits(remainingCostUnits))
      ensures StopsFor(old(View()), View(), sent, idle, end, BudgetLimit(slotProgress, blockFillCutoff), UsedUnits(remainingCostUnits))
      ensures sent != [] ==>
        && inFlightCus <= remainingCostUnits
        && 100 * ((if remainingCostUnits < MAX_BLOCK_UNITS then MAX_BLOCK_UNITS - remainingCostUnits else 0) + inFlightCus)
           <= MAX_BLOCK_UNITS * (if slotProgress + blockFillCutoff < 100 then slotProgress + blockFillCutoff else 100)
      ensures Spare(idle, sent) ==> NothingMoreFits(View(), inFlightCus, slotProgress, blockFillCutoff, remainingCostUnits)
      ensures SentFrom(sent, idle, old(checkedTx) - checkedTx, old(bundles) - bundles)
      ensures |old(checkedTx) - checkedTx| + |old(bundles) - bundles| == |sent|
      ensures executes == old(executes) + multiset(Flat(Transactions(sent)))
      ensures AllBefore(old(checkedTx) - checkedTx, old(bundles) - bundles, checkedTx, bundles)
    {
      hide Inv, Apply, Enabled, Progress, StopsFor, UsedUnits, BudgetLimit, Blocked, NothingMoreFits, Spare,
        SentFrom, AllBefore, Transactions, Flat, Exact, SumCost, SatSub, Head, Candidate.Batch, Candidate.Keys, Candidate.Cost;
      ghost var w := View();
      var limit := BudgetLimit(slotProgress, blockFillCutoff);
      var used := UsedUnits(remainingCostUnits);
      var budget := SatSub(limit, used + inFlightCus);
      sent := [];
      var worker := EXECUTE_WORKER_START;
      ProgressStart(w, idle, limit, used);
      while worker < |idle|
        invariant EXECUTE_WORKER_START <= worker <= |idle| && Valid()
        invariant Progress(w, View(), sent, idle, worker, limit, used)
        invariant budget == SatSub(limit, used + inFlightCus)
      {
        // A spent budget is one of the reasons to stop.
        if budget == 0 {
          break;
        }
        // Busy workers are passed over and do not count as served.
        if !idle[worker] {
          ProgressSkips(w, View(), sent, idle, worker, limit, used);
        } else {
          if checkedTx == {} && bundles == {} {
            break;
          }
          ghost var before := View();
          var left, ok := ScheduleHead(budget);
          if !ok {
            break;
          }
          ProgressSends(w, before, sent, idle, worker, limit, used);
          budget := left;
          sent := sent + [Sent(worker, scheduleBatch)];
        }
        worker := worker + 1;
      }
      end := worker;
      StopReasons(w, View(), sent, idle, worker, limit, used);
      RoundInWords(w, View(), sent, idle, worker, slotProgress, blockFillCutoff, remainingCostUnits);
    }

    // ---- Slots and tips ----

    /** Schedules the tip pair, if nothing executing conflicts with either; the two may
        overlap each other. */
    method BecomeTipReceiver(t: TipPair) returns (scheduled: bool)
      requires Valid() && t.Fresh(txs)
      modifies `txs, `checks, `inFlightLocks, `executingTx, `executes, `cohort
      ensures Valid()
      ensures scheduled <==> Free(old(View()), t.locks1) && Free(old(View()), t.locks2)
      ensures !scheduled ==> View() == old(View())
      ensures scheduled ==> Enabled(old(View()), t.Event()) && View() == Apply(old(View()), t.Event())
      ensures scheduled <==> forall k | k in old(executingTx) && k in old(txs) ::
        !Conflict(t.locks1, old(txs)[k].locks) && !Conflict(t.locks2, old(txs)[k].locks)
      ensures !scheduled ==> executingTx == old(executingTx) && txs == old(txs) && executes == old(executes)
      ensures scheduled ==>
        && executingTx == old(executingTx) + {t.key1, t.key2}
        && txs == old(txs) + map[t.key1 := Tx(t.locks1, 0xFFFF_FFFF_FFFF_FFFF, 0), t.key2 := Tx(t.locks2, 0xFFFF_FFFF_FFFF_FFFF, 0)]
        && executes == old(executes) + multiset{PriorityId(0xFFFF_FFFF_FFFF_FFFF, 0, t.key1), PriorityId(0xFFFF_FFFF_FFFF_FFFF, 0, t.key2)}
    {
      hide Inv, Free, Exact, SumCost, DistinctAccounts, TipsStarted;
      ghost var w := View();
      TipFacts(w, t);
      BothFree(w, t);
      InsertTips(t);
      var ok1 := CanLock(t.key1);
      var ok2 := CanLock(t.key2);
      scheduled := ok1 && ok2;
      TipsFree(inFlightLocks, w, t);
      if scheduled {
        SendTips(t, w);
        TipsStart(w, t);
        TipsAre(w, t);
        EventKeepsInv(w, t.Event());
      } else {
        DropTransaction(t.key1);
        DropTransaction(t.key2);
        TipsLeaveNoTrace(w, t);
      }
    }

    method InsertTips(t: TipPair)
      requires Coupled() && t.Fresh(txs)
      modifies `txs
      ensures txs == old(txs) + map[t.key1 := t.Tx1(), t.key2 := t.Tx2()] && Coupled()
    {
      hide Coupled;
      InsertTransaction(t.key1, t.Tx1());
      InsertTransaction(t.key2, t.Tx2());
    }

    /** Locks both, the second over the first if they overlap. */
    method LockTips(t: TipPair)
      requires t.key1 !in executingTx && t.key2 !in executingTx && t.key1 != t.key2
      requires DistinctAccounts(t.locks1) && DistinctAccounts(t.locks2)
      requires t.key1 in txs && t.key2 in txs && txs[t.key1] == t.Tx1() && txs[t.key2] == t.Tx2()
      requires Exact(inFlightLocks, executingTx, txs)
      modifies `inFlightLocks
      ensures Exact(inFlightLocks, executingTx + {t.key1, t.key2}, txs)
    {
      hide Exact, DistinctAccounts;
      LockAll(t.key1, executingTx);
      LockAll(t.key2, executingTx + {t.key1});
      assert executingTx + {t.key1} + {t.key2} == executingTx + {t.key1, t.key2};
    }

    /** Sends both messages of the tip pair. */
    method SendTips(t: TipPair, ghost w: World)
      requires t.Fresh(w.txs) && w.executing <= w.txs.Keys && Coupled()
      requires View() == w.(txs := w.txs + map[t.key1 := t.Tx1(), t.key2 := t.Tx2()])
      modifies `inFlightLocks, `executingTx, `executes, `cohort
      ensures Coupled() && View() == TipsStarted(w, t.key1, t.Tx1(), t.key2, t.Tx2())
    {
      hide Exact, SumCost, DistinctAccounts, Together;
      LockTips(t);
      assert t.key1 !in executingTx && t.key2 !in executingTx + {t.key1};  // the insertions' asserts
      executingTx := executingTx + {t.key1, t.key2};
      executes := executes + multiset{MetaOf(t.key1, t.Tx1()), MetaOf(t.key2, t.Tx2())};
      cohort := cohort + Together({t.key1, t.key2});
      TipsAreFree(w.executes, MetaOf(t.key1, t.Tx1()), MetaOf(t.key2, t.Tx2()));
    }

    // ---- Polling ----

    /** Puts the deferred transactions back among the checked ones; none is there already. */
    method ReturnDeferred()
      requires checkedTx !! deferredTx
      modifies `checkedTx, `deferredTx
      ensures checkedTx == old(checkedTx) + old(deferredTx) && deferredTx == {}
    {
      while deferredTx != {}
        invariant checkedTx !! deferredTx
        invariant checkedTx + deferredTx == old(checkedTx) + old(deferredTx)
        decreases |deferredTx|
      {
        var meta :| meta in deferredTx;
        deferredTx := deferredTx - {meta};
        assert meta !in checkedTx;  // the insertion's assert
        checkedTx := checkedTx + {meta};
      }
    }

    /** Starts another recheck sweep unless one is under way. */
    method StartRecheck()
      modifies `nextRecheck
      ensures nextRecheck == NextSweep(old(View()))
      ensures old(nextRecheck).Some? ==> nextRecheck == old(nextRecheck)
      ensures old(nextRecheck).None? ==>
        if nextRecheck.None? then checkedTx == {}
        else nextRecheck.value in checkedTx && forall x | x in checkedTx :: AtMost(x, nextRecheck.value)
    {
      if nextRecheck.None? && checkedTx != {} {
        var last := PeekLast(checkedTx);
        nextRecheck := Some(last);
      }
    }

    method ChangeSlot(newSlot: Slot)
      requires Valid() && newSlot != slot
      modifies `slot, `wasLeaderReady, `checkedTx, `deferredTx, `nextRecheck
      ensures Valid() && View() == Rolled(old(View()), newSlot) && !wasLeaderReady
      ensures slot == newSlot && checkedTx == old(checkedTx) + old(deferredTx) && deferredTx == {}
      ensures old(nextRecheck).Some? ==> nextRecheck == old(nextRecheck)
      ensures old(nextRecheck).None? ==>
        if nextRecheck.None? then checkedTx == {}
        else nextRecheck.value in checkedTx && forall x | x in checkedTx :: AtMost(x, nextRecheck.value)
    {
      hide Inv, Coupled, Last, Rolled, Apply, Enabled, NextSweep;
      ghost var w := View();
      DeferredApart(w);
      RollIs(w, newSlot);
      RolledKeepsInv(w, newSlot);
      slot := newSlot;
      wasLeaderReady := false;
      ReturnDeferred();
      assert View() == w.(slot := newSlot, checked := w.checked + w.deferred, deferred := {});
      StartRecheck();
    }

    /** Catches up with the validator's slot, and sends the tip pair when it has just
        become the leader. The flag is read before the slot change clears it. */
    method CheckSlotRoll(newSlot: Slot, leaderReady: bool, t: TipPair)
      requires Valid() && t.Fresh(txs)
      modifies this
      ensures Valid() && txs.Keys <= old(txs).Keys + {t.key1, t.key2}
      ensures var es := RollEvents(old(View()), newSlot, leaderReady && !old(wasLeaderReady), t);
        Possible(old(View()), es) && View() == Run(old(View()), es)
      ensures wasLeaderReady == (
        if leaderReady && !old(wasLeaderReady) then true else old(wasLeaderReady) && newSlot == old(slot))
      ensures slot == newSlot
      ensures newSlot == old(slot) ==>
        checkedTx == old(checkedTx) && deferredTx == old(deferredTx) && nextRecheck == old(nextRecheck)
      ensures newSlot != old(slot) ==>
        && checkedTx == old(checkedTx) + old(deferredTx) && deferredTx == {}
        && (old(nextRecheck).Some? ==> nextRecheck == old(nextRecheck))
        && (old(nextRecheck).None? ==>
              if nextRecheck.None? then checkedTx == {}
              else nextRecheck.value in checkedTx && forall x | x in checkedTx :: AtMost(x, nextRecheck.value))
      ensures executingTx == old(executingTx) + (
        if leaderReady && !old(wasLeaderReady)
           && (forall k | k in old(executingTx) && k in old(txs) ::
                 !Conflict(t.locks1, old(txs)[k].locks) && !Conflict(t.locks2, old(txs)[k].locks))
        then {t.key1, t.key2} else {})
    {
      hide Inv, Coupled, Apply, Enabled, Free, Rolled;
      ghost var w := View();
      var was := wasLeaderReady;
      RollRuns(w, newSlot);
      RolledIs(w, newSlot);
      NoRoll(w);
      if newSlot != slot {
        ChangeSlot(newSlot);
      }
      if leaderReady && !was {
        wasLeaderReady := true;
        var scheduled := BecomeTipReceiver(t);
        if scheduled {
          RunSnoc(w, if newSlot == w.slot then [] else [Roll(newSlot)], t.Event());
        }
      }
      RollAdds(w, newSlot, leaderReady && !was, t);
      RunAddsKeys(w, RollEvents(w, newSlot, leaderReady && !was, t), {t.key1, t.key2});
    }

    method OnUpdate(u: Update) returns (ok: bool)
      requires Valid() && u.WellFormed() && u.Keys() !! txs.Keys
      modifies `uncheckedTx, `bundles, `txs, `checks
      ensures ok <==> Possible(old(View()), UpdateEvents(old(View()), u))
      ensures ok ==> Valid() && txs.Keys <= old(txs).Keys + u.Keys()
      ensures ok ==> View() == Run(old(View()), UpdateEvents(old(View()), u))
      ensures u.Refused? ==> ok && uncheckedTx == old(uncheckedTx) && bundles == old(bundles) && txs == old(txs)
      ensures ok && u.Loose? ==>
        && bundles == old(bundles)
        && if u.arrival.costReward.None? || u.arrival.filtered then uncheckedTx == old(uncheckedTx) && txs == old(txs)
           else Stored(u.arrival, txs, uncheckedTx)
      ensures ok && u.Bundled? ==>
        && uncheckedTx == old(uncheckedTx)
        && if forall i | 0 <= i < |u.packets| :: u.packets[i].inserted && u.packets[i].costReward.Some? && !u.packets[i].filtered
           then exists b :: b in bundles && Carries(b, u.packets, u.now, txs)
           else bundles == old(bundles) && txs == old(txs)
    {
      hide Inv, Coupled, Apply, Enabled, Stored, Carries, LosesLowest, LosesLowestBundle, IsQuotient;
      ok := true;
      match u {
        case Refused =>
        case Loose(a) =>
          ok := OnPacket(a);
        case Bundled(ps, now) =>
          assert forall i | 0 <= i < |ps| :: ps[i].key in u.Keys();
          ok := OnBundle(ps, now);
      }
      if ok {
        UpdateAdds(old(View()), u);
        RunAddsKeys(old(View()), UpdateEvents(old(View()), u), u.Keys());
      }
    }

    /** Takes in everything the block engine has sent, up to an update that fails. */
    method DrainJito(us: seq<Update>) returns (ok: bool)
      requires Valid() && FreshUpdates(us, txs)
      modifies `uncheckedTx, `bundles, `txs, `checks
      ensures ok <==> Possible(old(View()), JitoEvents(old(View()), us))
      ensures ok ==> Valid() && View() == Run(old(View()), JitoEvents(old(View()), us))
    {
      hide Inv, Coupled, Apply, Enabled, Run, Possible, UpdateEvents;
      ghost var w := View();
      NoStep(w);
      var i := 0;
      while i < |us|
        invariant 0 <= i <= |us| && Valid()
        invariant Possible(w, JitoEvents(w, us[..i])) && View() == Run(w, JitoEvents(w, us[..i]))
        invariant forall j | i <= j < |us| :: us[j].Keys() !! txs.Keys
      {
        ghost var before := JitoEvents(w, us[..i]);
        ok := OnUpdate(us[i]);
        assert us[..i + 1][..i] == us[..i];
        AppendIff(w, before, UpdateEvents(Run(w, before), us[i]));
        if !ok {
          FailureStays(w, us, i + 1);
          return;
        }
        i := i + 1;
      }
      assert us[..|us|] == us;
      ok := true;
    }

    /** The slot roll, then the workers' responses. */
    method Open(input: Input) returns (ok: bool)
      requires Valid() && input.tips.Fresh(txs) && Answered(View(), input, wasLeaderReady)
      modifies this
      ensures ok <==> Possible(old(View()), OpeningEvents(old(View()), input, old(wasLeaderReady)))
      ensures ok ==> Valid() && txs.Keys <= old(txs).Keys + {input.tips.key1, input.tips.key2}
      ensures ok ==> View() == Run(old(View()), OpeningEvents(old(View()), input, old(wasLeaderReady)))
      ensures wasLeaderReady == SeenLeader(input, old(wasLeaderReady), old(slot))
    {
      hide Inv, Coupled, Apply, Enabled, RollEvents, Opened, Deliverable;
      ghost var w := View();
      ghost var due := input.leaderReady && !wasLeaderReady;
      OpenedIsRun(w, input.slot, due, input.tips);
      CheckSlotRoll(input.slot, input.leaderReady, input.tips);
      ghost var w1 := View();
      AppendIff(w, RollEvents(w, input.slot, due, input.tips), Events(input.responses));
      ok := DrainWorkerResponses(input.responses);
      if ok {
        ResponsesAddNone(input.responses);
        RunAddsKeys(w1, Events(input.responses), {});
      }
    }

    /** The validator's transactions, then the expired bundles. */
    method Refresh(input: Input) returns (ok: bool, ghost expired: seq<Event>)
      requires Valid() && FreshArrivals(input.arrivals, txs)
      requires |input.arrivals| <= input.tpuLen && |input.arrivals| <= if input.leaderReady then 128 else 1024
      modifies `uncheckedTx, `bundles, `txs, `checks
      ensures (forall e | e in expired :: e.DropBundle?) && (!ok ==> expired == [])
      ensures ok <==> Possible(old(View()), TpuEvents(old(View()), input.arrivals, input.tpuLen, input.MaxArrivals()) + expired)
      ensures ok ==> Valid() && txs.Keys <= old(txs).Keys + ArrivalKeys(input.arrivals)
      ensures ok ==> View() == Run(old(View()), TpuEvents(old(View()), input.arrivals, input.tpuLen, input.MaxArrivals()) + expired)
      ensures ok <==> input.tpuLen <= cfg.uncheckedCapacity || (if input.leaderReady then 128 else 1024) <= cfg.uncheckedCapacity
      ensures ok ==> bundles == set b | b in old(bundles) && SatSub(input.now, b.receivedAt) <= bundleExpiry
      ensures ok ==> bundles == set b | b in old(bundles) && input.now <= b.receivedAt + bundleExpiry
    {
      hide Inv, Coupled, Apply, Enabled;
      ghost var w := View();
      ghost var es := TpuEvents(w, input.arrivals, input.tpuLen, input.MaxArrivals());
      expired := [];
      ok := DrainTpu(input.arrivals, input.tpuLen, input.MaxArrivals());
      assert es + [] == es;
      if ok {
        TpuAdds(w, input.arrivals, input.tpuLen, input.MaxArrivals());
        RunAddsKeys(w, es, ArrivalKeys(input.arrivals));
        ghost var w1 := View();
        expired := DropExpiredBundles(input.now);
        DropsAddNone(expired);
        RunAddsKeys(w1, expired, {});
        RunAppend(w, es, expired);
      }
    }

    /** Everything a poll takes in before it schedules anything. */
    method Intake(input: Input) returns (ok: bool, ghost expired: seq<Event>)
      requires Valid() && FreshInput(txs, input.tips, input.arrivals, input.updates)
      requires Answered(View(), input, wasLeaderReady)
      requires |input.arrivals| <= input.tpuLen && |input.arrivals| <= if input.leaderReady then 128 else 1024
      modifies this
      ensures forall e | e in expired :: e.DropBundle?
      ensures ok <==> Possible(old(View()), IntakeEvents(old(View()), input, old(wasLeaderReady), expired))
      ensures ok ==> Valid() && View() == Run(old(View()), IntakeEvents(old(View()), input, old(wasLeaderReady), expired))
      ensures DroppedRightly(old(View()), input, old(wasLeaderReady), expired, bundleExpiry)
      ensures ok ==> ExactlyExpired(old(View()), input, old(wasLeaderReady), expired, bundleExpiry)
      ensures wasLeaderReady == SeenLeader(input, old(wasLeaderReady), old(slot))
    {
      hide Inv, Coupled, Apply, Enabled, Run, Possible, OpeningEvents, TpuEvents, JitoEvents,
        FreshInput, FreshArrivals, FreshUpdates, Answered;
      ghost var w := View();
      ghost var opening := OpeningEvents(w, input, wasLeaderReady);
      expired := [];
      TipsAreNew(txs, input);
      ok := Open(input);
      if !ok {
        return;
      }
      StillFreshArrivals(w.txs, txs, input);
      ghost var w1 := View();
      ghost var es := TpuEvents(w1, input.arrivals, input.tpuLen, input.MaxArrivals());
      ok, expired := Refresh(input);
      AppendIff(w, opening, es);
      AppendIff(w, opening, es + expired);
      if ok {
        SplitRun(w1, es, expired);
      } else {
        assert es + [] == es;
      }
      ghost var sofar := opening + es + expired;
      assert sofar == opening + (es + expired);
      if !ok {
        return;
      }
      StillFreshUpdates(w.txs, txs, input);
      ghost var w2 := View();
      ok := DrainJito(input.updates);
      AppendIff(w, sofar, JitoEvents(w2, input.updates));
    }

    /** A leader's part: the executions, then the next recheck sweep. */
    method Lead(input: Input) returns (sent: seq<Sent>, ghost last: nat)
      requires Valid() && |input.idle| >= EXECUTE_WORKER_START
      modifies `inFlightLocks, `scheduleBatch, `executes, `cohort, `inFlightCus, `checkedTx, `bundles, `executingTx, `nextRecheck
      ensures Valid()
      ensures Led(old(View()), View(), input, blockFillCutoff, sent, last)
      ensures sent != [] ==>
        && inFlightCus <= input.remainingCostUnits
        && 100 * ((if input.remainingCostUnits < MAX_BLOCK_UNITS then MAX_BLOCK_UNITS - input.remainingCostUnits else 0) + inFlightCus)
           <= MAX_BLOCK_UNITS * (if input.slotProgress + blockFillCutoff < 100 then input.slotProgress + blockFillCutoff else 100)
      ensures Spare(input.idle, sent) ==>
        NothingMoreFits(View(), inFlightCus, input.slotProgress, blockFillCutoff, input.remainingCostUnits)
      ensures SweepGoesOn(old(nextRecheck), View(), true)
    {
      hide Inv, Coupled, Apply, Enabled, Progress, StopsFor, Spare, NothingMoreFits;
      ghost var w := View();
      sent, last := ScheduleExecute(input.slotProgress, input.remainingCostUnits, input.idle);
      ProgressRuns(w, View(), sent, input.idle, last,
                   BudgetLimit(input.slotProgress, blockFillCutoff), UsedUnits(input.remainingCostUnits));
      ghost var w1 := View();
      StartRecheck();
      SweepKeepsInv(w1);
      StillNothingFits(w1, View(), inFlightCus, input.slotProgress, blockFillCutoff, input.remainingCostUnits);
    }

    /** Checks and rechecks, then what a leader adds. */
    method Dispatch(input: Input) returns (checkBatches: seq<seq<PriorityId>>, sent: seq<Sent>, ghost last: nat)
      requires Valid() && |input.idle| >= EXECUTE_WORKER_START
      modifies this
      ensures Valid()
      ensures wasLeaderReady == old(wasLeaderReady) && slot == old(slot)
      ensures Dispatched(old(View()), View(), input, maxCheckBatches, blockFillCutoff, checkBatches, sent, last)
      ensures sent != [] ==>
        && inFlightCus <= input.remainingCostUnits
        && 100 * ((if input.remainingCostUnits < MAX_BLOCK_UNITS then MAX_BLOCK_UNITS - input.remainingCostUnits else 0) + inFlightCus)
           <= MAX_BLOCK_UNITS * (if input.slotProgress + blockFillCutoff < 100 then input.slotProgress + blockFillCutoff else 100)
      ensures input.leaderReady && Spare(input.idle, sent) ==>
        NothingMoreFits(View(), inFlightCus, input.slotProgress, blockFillCutoff, input.remainingCostUnits)
      ensures !input.leaderReady ==> sent == []
      ensures var room := if SatSub(maxCheckBatches, input.queuedChecks) < input.freeChecks
                          then SatSub(maxCheckBatches, input.queuedChecks) else input.freeChecks;
        && |checkBatches| <= room && (forall batch | batch in checkBatches :: 0 < |batch| <= 64)
        && (|Flat(checkBatches)| < 64 * room ==> uncheckedTx == {})
        && SweepGoesOn(Drained(old(View()), 64 * room).cursor, View(), input.leaderReady)
    {
      hide Inv, Coupled, Drained, DrainedMetas, Led, Spare, NothingMoreFits;
      ExhaustedIfFewer(View(), BATCH_SIZE * input.CheckRoom(maxCheckBatches));
      checkBatches := ScheduleChecks(input.queuedChecks, input.freeChecks);
      sent, last := [], EXECUTE_WORKER_START;
      if input.leaderReady {
        sent, last := Lead(input);
      }
    }

    /** One poll. It fails exactly when taking something in fails. Otherwise its outputs
        are those of a run from the state the intake left; the whole poll is a run as well,
        so everything proved about runs holds of it. */
    method Poll(input: Input)
      returns (ok: bool, checkBatches: seq<seq<PriorityId>>, sent: seq<Sent>, ghost expired: seq<Event>, ghost last: nat)
      requires Valid() && FreshInput(txs, input.tips, input.arrivals, input.updates)
      requires Answered(View(), input, wasLeaderReady)
      requires |input.arrivals| <= input.tpuLen && |input.arrivals| <= if input.leaderReady then 128 else 1024
      requires |input.idle| >= EXECUTE_WORKER_START
      modifies this
      ensures forall e | e in expired :: e.DropBundle?
      ensures ok <==> Possible(old(View()), IntakeEvents(old(View()), input, old(wasLeaderReady), expired))
      ensures DroppedRightly(old(View()), input, old(wasLeaderReady), expired, bundleExpiry)
      ensures ok ==> Valid() && ExactlyExpired(old(View()), input, old(wasLeaderReady), expired, bundleExpiry)
      ensures wasLeaderReady == SeenLeader(input, old(wasLeaderReady), old(slot))
      ensures ok ==>
        var w := old(View()); var intake := IntakeEvents(w, input, old(wasLeaderReady), expired);
        && Dispatched(Run(w, intake), View(), input, maxCheckBatches, blockFillCutoff, checkBatches, sent, last)
        && var trace := intake + DispatchEvents(Run(w, intake), input, maxCheckBatches, |sent|);
        && Possible(w, trace) && View() == Run(w, trace)
      ensures ok && sent != [] ==>
        && inFlightCus <= input.remainingCostUnits
        && 100 * ((if input.remainingCostUnits < MAX_BLOCK_UNITS then MAX_BLOCK_UNITS - input.remainingCostUnits else 0) + inFlightCus)
           <= MAX_BLOCK_UNITS * (if input.slotProgress + blockFillCutoff < 100 then input.slotProgress + blockFillCutoff else 100)
      ensures ok && input.leaderReady && Spare(input.idle, sent) ==>
        NothingMoreFits(View(), inFlightCus, input.slotProgress, blockFillCutoff, input.remainingCostUnits)
      ensures ok && !input.leaderReady ==> sent == []
      ensures ok ==>
        var w1 := Run(old(View()), IntakeEvents(old(View()), input, old(wasLeaderReady), expired));
        var room := if SatSub(maxCheckBatches, input.queuedChecks) < input.freeChecks
                    then SatSub(maxCheckBatches, input.queuedChecks) else input.freeChecks;
        && |checkBatches| <= room && (forall batch | batch in checkBatches :: 0 < |batch| <= 64)
        && (|Flat(checkBatches)| < 64 * room ==> uncheckedTx == {})
        && SweepGoesOn(Drained(w1, 64 * room).cursor, View(), input.leaderReady)
    {
      hide Inv, Coupled, Run, Possible, IntakeEvents, DispatchEvents, Dispatched, OpeningEvents,
        FreshInput, ExactlyExpired, DroppedRightly, Answered,
        Spare, NothingMoreFits, SweepGoesOn, Drained;
      ghost var w, was := View(), wasLeaderReady;
      checkBatches, sent, last := [], [], EXECUTE_WORKER_START;
      ok, expired := Intake(input);
      if ok {
        ghost var w1 := View();
        checkBatches, sent, last := Dispatch(input);
        DispatchIsRun(w1, View(), input, maxCheckBatches, blockFillCutoff, checkBatches, sent, last);
        RunAppend(w, IntakeEvents(w, input, was, expired), DispatchEvents(w1, input, maxCheckBatches, |sent|));
      }
    }
  }
}
