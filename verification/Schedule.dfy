/** Budget arithmetic and other facts about scheduling executions. */
module Schedule {
  import opened Orders
  import opened Locks
  import opened Protocol
  import opened Invariant
  import opened Capacity
  import opened Merge
  import opened Ingest
  import opened Sequences

  const EXECUTE_WORKER_START: nat := 1

  /** A batch handed to an execute worker. */
  datatype Sent = Sent(worker: nat, transactions: seq<PriorityId>)

  /** The share of the block that may be used at this point of the slot. */
  function BudgetLimit(slotProgress: nat, blockFillCutoff: nat): (limit: nat)
    ensures limit <= MAX_BLOCK_UNITS
  {
    var percentage := if slotProgress + blockFillCutoff < 100 then slotProgress + blockFillCutoff else 100;
    MAX_BLOCK_UNITS * percentage / 100
  }

  /** Units of the block that are used up already. */
  function UsedUnits(remainingCostUnits: nat): nat {
    SatSub(MAX_BLOCK_UNITS, remainingCostUnits)
  }

  /** Execute workers from `from` on that have nothing to do. */
  function IdleWorkers(idle: seq<bool>, from: nat): nat
    decreases |idle| - from
  {
    if from >= |idle| then 0 else (if idle[from] then 1 else 0) + IdleWorkers(idle, from + 1)
  }

  /** Why the head of the queue cannot start now. */
  ghost predicate Blocked(w: World, c: Candidate, budget: nat) {
    c.Cost() > budget || exists k :: k in c.Keys() && k in w.txs && !Free(w, w.txs[k].locks)
  }

  lemma CheckedFacts(w: World)
    requires Inv(w)
    ensures forall m | m in w.checked ::
      && m.key in w.txs && m == Meta(w, m.key) && m.key !in w.executing && DistinctAccounts(w.txs[m.key].locks)
    ensures w.executing <= w.txs.Keys
  {
  }

  lemma WaitingBundleFacts(w: World, b: BundleId)
    requires Inv(w) && b in w.bundles
    ensures b.keys != [] && DistinctKeys(b.keys)
    ensures forall k | k in b.keys :: k in w.txs && k !in w.executing && DistinctAccounts(w.txs[k].locks)
  {
    BundleFacts(w, b);
  }

  /** With the table exact, "can lock" means conflict with no executing transaction. */
  lemma CanLockIsFree(t: Table, w: World, locks: seq<Lock>)
    requires Exact(t, w.executing, w.txs)
    ensures CanLockAll(t, locks) <==> Free(w, locks)
  {
    CanLockIffNoConflict(t, w.executing, w.txs, locks);
  }

  lemma HeadIs(w: World)
    requires w.checked != {} || w.bundles != {}
    ensures Head(w.checked, w.bundles).Some?
    ensures var c := Head(w.checked, w.bundles).value;
      && (c.Single? <==> w.checked != {} && (w.bundles == {} || Last(w.checked).priority >= LastBundle(w.bundles).priority))
      && (c.Single? ==> c.id == Last(w.checked))
      && (c.Pack? ==> w.bundles != {} && c.bundle == LastBundle(w.bundles))
  {
  }

  lemma StartSingleIs(w: World, m: PriorityId)
    ensures Start(w, Single(m)) ==
      w.(checked := w.checked - {m}, executing := w.executing + {m.key}, executes := w.executes + multiset{m},
         cohort := w.cohort + Together({m.key}))
  {
    assert KeySet([m.key]) == {m.key};
    assert multiset([m]) == multiset{m};
  }

  lemma StartPackIs(w: World, b: BundleId)
    ensures Start(w, Pack(b)) ==
      w.(bundles := w.bundles - {b}, executing := w.executing + KeySet(b.keys),
         executes := w.executes + multiset(BundleBatch(b)), cohort := w.cohort + Together(KeySet(b.keys)))
  {
  }

  /** The head may start: what `Enabled` asks of it. */
  lemma HeadMayStart(w: World, c: Candidate)
    requires Head(w.checked, w.bundles) == Some(c) && InFlightCus(w) + c.Cost() <= MAX_BLOCK_UNITS
    requires forall k | k in c.Keys() :: k in w.txs && Free(w, w.txs[k].locks)
    ensures Enabled(w, StartHead) && Apply(w, StartHead) == Start(w, c)
  {
  }

  lemma CandidateFacts(w: World, c: Candidate)
    requires Inv(w) && Head(w.checked, w.bundles) == Some(c)
    ensures c.Keys() != [] && DistinctKeys(c.Keys()) && |c.Batch()| == |c.Keys()|
    ensures forall i | 0 <= i < |c.Keys()| :: c.Batch()[i].key == c.Keys()[i]
    ensures forall k | k in c.Keys() :: k in w.txs && k !in w.executing
  {
    if c.Pack? {
      BundleFacts(w, c.bundle);
      assert forall i | 0 <= i < |c.bundle.keys| :: BundleBatch(c.bundle)[i] == BundleMeta(c.bundle, i);
    } else {
      CheckedFacts(w);
    }
  }

  lemma StartIs(w: World, c: Candidate)
    requires Enabled(w, StartHead) && Head(w.checked, w.bundles) == Some(c)
    ensures Apply(w, StartHead) == Start(w, c)
    ensures Start(w, c).executing == w.executing + KeySet(c.Keys())
  {
  }

  lemma StartCost(w: World, c: Candidate)
    requires Enabled(w, StartHead) && Head(w.checked, w.bundles) == Some(c) && c.Keys() != []
    ensures InFlightCus(Apply(w, StartHead)) == InFlightCus(w) + c.Cost()
  {
    SumCostBatch(w.executes, c);
  }

  lemma MergedHead(checked: set<PriorityId>, bundles: set<BundleId>)
    ensures Merged(checked, bundles) == [] <==> checked == {} && bundles == {}
    ensures Merged(checked, bundles) != [] ==> Head(checked, bundles) == Some(Merged(checked, bundles)[0])
  {
  }

  /** The first batches of the merge went one to each idle worker below `end`, in order. */
  ghost predicate Assigned(sent: seq<Sent>, merged: seq<Candidate>, idle: seq<bool>, end: nat) {
    && |sent| <= |merged|
    && (forall i | 0 <= i < |sent| :: sent[i].transactions == merged[i].Batch())
    && EXECUTE_WORKER_START <= end <= |idle|
    && (forall i | 0 <= i < |sent| :: EXECUTE_WORKER_START <= sent[i].worker < end && idle[sent[i].worker])
    && (forall i, j | 0 <= i < j < |sent| :: sent[i].worker < sent[j].worker)
    && |sent| + IdleWorkers(idle, end) == IdleWorkers(idle, EXECUTE_WORKER_START)
  }

  /** What has been sent once the workers below `end` have been looked at: as many starts
      as batches, and the block's share is not exceeded. */
  ghost predicate Progress(w: World, now: World, sent: seq<Sent>, idle: seq<bool>, end: nat, limit: nat, used: nat) {
    && Possible(w, Heads(|sent|)) && now == Run(w, Heads(|sent|))
    && Assigned(sent, Merged(w.checked, w.bundles), idle, end)
    && (sent != [] ==> used + InFlightCus(now) <= limit)
  }

  /** Why nothing more is sent: no idle worker, no budget, no candidate, or the next one
      of the merge does not fit the budget or conflicts. */
  ghost predicate StopsFor(w: World, now: World, sent: seq<Sent>, idle: seq<bool>, end: nat, limit: nat, used: nat) {
    var merged := Merged(w.checked, w.bundles);
    var budget := SatSub(limit, used + InFlightCus(now));
    || |sent| == IdleWorkers(idle, EXECUTE_WORKER_START)
    || budget == 0
    || |sent| == |merged|
    || (|sent| < |merged| && Blocked(now, merged[|sent|], budget))
  }

  lemma ProgressStart(w: World, idle: seq<bool>, limit: nat, used: nat)
    requires |idle| >= EXECUTE_WORKER_START
    ensures Progress(w, w, [], idle, EXECUTE_WORKER_START, limit, used)
  {
  }

  lemma ProgressSkips(w: World, now: World, sent: seq<Sent>, idle: seq<bool>, end: nat, limit: nat, used: nat)
    requires Progress(w, now, sent, idle, end, limit, used) && end < |idle| && !idle[end]
    ensures Progress(w, now, sent, idle, end + 1, limit, used)
  {
    hide Possible, Run, Merged;
  }

  /** One more start takes the next element of the merge. */
  lemma NextOfMerge(w: World, now: World, n: nat)
    requires Possible(w, Heads(n)) && now == Run(w, Heads(n)) && Enabled(now, StartHead)
    ensures Possible(w, Heads(n + 1)) && Apply(now, StartHead) == Run(w, Heads(n + 1))
    ensures n < |Merged(w.checked, w.bundles)|
    ensures Head(now.checked, now.bundles) == Some(Merged(w.checked, w.bundles)[n])
  {
    PickedIsPrefix(w, n);
    MergedHead(now.checked, now.bundles);
    StartTakesHead(now);
    hide Apply, Enabled, Merged, Head;
    RunSnoc(w, Heads(n), StartHead);
    HeadsAppend(n);
  }

  lemma AssignedSends(sent: seq<Sent>, merged: seq<Candidate>, idle: seq<bool>, end: nat)
    requires Assigned(sent, merged, idle, end) && end < |idle| && idle[end] && |sent| < |merged|
    ensures Assigned(sent + [Sent(end, merged[|sent|].Batch())], merged, idle, end + 1)
  {
  }

  lemma ProgressSends(w: World, now: World, sent: seq<Sent>, idle: seq<bool>, end: nat, limit: nat, used: nat)
    requires Progress(w, now, sent, idle, end, limit, used) && end < |idle| && idle[end]
    requires Enabled(now, StartHead) && Head(now.checked, now.bundles).Some?
    requires Head(now.checked, now.bundles).value.Keys() != []
    requires used + InFlightCus(now) + Head(now.checked, now.bundles).value.Cost() <= limit
    ensures Progress(w, Apply(now, StartHead), sent + [Sent(end, Head(now.checked, now.bundles).value.Batch())],
                     idle, end + 1, limit, used)
  {
    hide Apply, Enabled, Merged, Head, InFlightCus, Heads, Possible, Run, Assigned;
    StartCost(now, Head(now.checked, now.bundles).value);
    NextOfMerge(w, now, |sent|);
    AssignedSends(sent, Merged(w.checked, w.bundles), idle, end);
  }

  /** What is left of the merge after `n` starts. */
  lemma LeftOfMerge(w: World, now: World, n: nat)
    requires Possible(w, Heads(n)) && now == Run(w, Heads(n))
    ensures var merged := Merged(w.checked, w.bundles);
      && (now.checked == {} && now.bundles == {} ==> n == |merged|)
      && (Head(now.checked, now.bundles).Some? ==> n < |merged| && merged[n] == Head(now.checked, now.bundles).value)
  {
    PickedIsPrefix(w, n);
    hide Possible, Run;
    MergedHead(now.checked, now.bundles);
    hide Merged, Head;
  }

  lemma NoMoreWorkers(sent: seq<Sent>, merged: seq<Candidate>, idle: seq<bool>)
    requires Assigned(sent, merged, idle, |idle|)
    ensures |sent| == IdleWorkers(idle, EXECUTE_WORKER_START)
  {
  }

  /** Every way out of the worker loop is one of the reasons to stop. */
  lemma StopReasons(w: World, now: World, sent: seq<Sent>, idle: seq<bool>, end: nat, limit: nat, used: nat)
    requires Progress(w, now, sent, idle, end, limit, used)
    ensures SatSub(limit, used + InFlightCus(now)) == 0 || end == |idle| || (now.checked == {} && now.bundles == {})
      ==> StopsFor(w, now, sent, idle, end, limit, used)
    ensures Head(now.checked, now.bundles).Some?
      && Blocked(now, Head(now.checked, now.bundles).value, SatSub(limit, used + InFlightCus(now)))
      ==> StopsFor(w, now, sent, idle, end, limit, used)
  {
    hide Possible, Run, Merged, Head, Blocked, InFlightCus, Assigned, Heads, IdleWorkers;
    LeftOfMerge(w, now, |sent|);
    if end == |idle| {
      NoMoreWorkers(sent, Merged(w.checked, w.bundles), idle);
    }
  }

  // ---- The same in numbers ----

  /** These units, with what the block has used up, are no more than the share of the block
      that may be used at this point of the slot. */
  predicate WithinShare(units: nat, slotProgress: nat, blockFillCutoff: nat, remainingCostUnits: nat) {
    var spent := if remainingCostUnits < MAX_BLOCK_UNITS then MAX_BLOCK_UNITS - remainingCostUnits else 0;
    var percentage := if slotProgress + blockFillCutoff < 100 then slotProgress + blockFillCutoff else 100;
    100 * (spent + units) <= MAX_BLOCK_UNITS * percentage
  }

  /** An idle execute worker got nothing. Worker 0 is the check worker. */
  ghost predicate Spare(idle: seq<bool>, sent: seq<Sent>) {
    exists i :: 1 <= i < |idle| && idle[i] && forall j | 0 <= j < |sent| :: sent[j].worker != i
  }

  /** The first of what waits does not fit the share or conflicts with something executing,
      or not a single unit is left, or nothing waits. */
  ghost predicate NothingMoreFits(w: World, inFlight: nat, slotProgress: nat, blockFillCutoff: nat, remainingCostUnits: nat) {
    || !WithinShare(inFlight + 1, slotProgress, blockFillCutoff, remainingCostUnits)
    || forall c | Waits(c, w.checked, w.bundles) && (forall d | Waits(d, w.checked, w.bundles) && d != c :: Before(c, d)) ::
         || !WithinShare(inFlight + c.Cost(), slotProgress, blockFillCutoff, remainingCostUnits)
         || exists k, h :: k in c.Keys() && k in w.txs && h in w.executing && h in w.txs && Conflict(w.txs[k].locks, w.txs[h].locks)
  }

  lemma ShareIs(units: nat, slotProgress: nat, blockFillCutoff: nat, remainingCostUnits: nat)
    ensures WithinShare(units, slotProgress, blockFillCutoff, remainingCostUnits) <==>
      UsedUnits(remainingCostUnits) + units <= BudgetLimit(slotProgress, blockFillCutoff)
  {
    var percentage := if slotProgress + blockFillCutoff < 100 then slotProgress + blockFillCutoff else 100;
    assert MAX_BLOCK_UNITS * percentage == 100 * (600_000 * percentage);
    assert BudgetLimit(slotProgress, blockFillCutoff) == 600_000 * percentage;
  }

  lemma StillNothingFits(w: World, w': World, inFlight: nat, slotProgress: nat, blockFillCutoff: nat, remainingCostUnits: nat)
    requires w' == w.(cursor := w'.cursor)
    ensures NothingMoreFits(w, inFlight, slotProgress, blockFillCutoff, remainingCostUnits)
       <==> NothingMoreFits(w', inFlight, slotProgress, blockFillCutoff, remainingCostUnits)
  {
    hide WithinShare, Conflict, Before;
  }

  lemma ShareInWords(units: nat, slotProgress: nat, blockFillCutoff: nat, remainingCostUnits: nat)
    ensures WithinShare(units, slotProgress, blockFillCutoff, remainingCostUnits) ==>
      && units <= remainingCostUnits
      && 100 * ((if remainingCostUnits < MAX_BLOCK_UNITS then MAX_BLOCK_UNITS - remainingCostUnits else 0) + units)
         <= MAX_BLOCK_UNITS * (if slotProgress + blockFillCutoff < 100 then slotProgress + blockFillCutoff else 100)
  {
  }

  /** One of the transactions, or the whole of one of the bundles, in its order and with
      its cost on the first member. */
  ghost predicate TakenFrom(batch: seq<PriorityId>, checked: set<PriorityId>, bundles: set<BundleId>) {
    || (exists m :: m in checked && batch == [m])
    || (exists b :: b in bundles && |batch| == |b.keys| && forall i | 0 <= i < |batch| ::
          batch[i] == PriorityId(0xFFFF_FFFF_FFFF_FFFF, if i == 0 then b.cost else 0, b.keys[i]))
  }

  /** At most one batch for each idle execute worker, in order, each taken from these. */
  ghost predicate SentFrom(sent: seq<Sent>, idle: seq<bool>, checked: set<PriorityId>, bundles: set<BundleId>) {
    && (forall i | 0 <= i < |sent| :: 1 <= sent[i].worker < |idle| && idle[sent[i].worker])
    && (forall i, j | 0 <= i < j < |sent| :: sent[i].worker < sent[j].worker)
    && (forall i | 0 <= i < |sent| :: TakenFrom(sent[i].transactions, checked, bundles))
  }

  function Transactions(sent: seq<Sent>): seq<seq<PriorityId>> {
    seq(|sent|, i requires 0 <= i < |sent| => sent[i].transactions)
  }

  lemma TransactionsSnoc(sent: seq<Sent>)
    requires sent != []
    ensures multiset(Flat(Transactions(sent))) ==
      multiset(Flat(Transactions(sent[..|sent| - 1]))) + multiset(sent[|sent| - 1].transactions)
  {
    var n := |sent| - 1;
    assert Transactions(sent) == Transactions(sent[..n]) + [sent[n].transactions];
    FlatSnoc(Transactions(sent[..n]), sent[n].transactions);
  }

  lemma BatchIsTaken(c: Candidate, checked: set<PriorityId>, bundles: set<BundleId>)
    requires Waits(c, checked, bundles)
    ensures TakenFrom(c.Batch(), checked, bundles)
  {
  }

  lemma OneStart(now: World, c: Candidate)
    requires Possible(now, [StartHead]) && Head(now.checked, now.bundles) == Some(c)
    ensures Run(now, [StartHead]).executes == now.executes + multiset(c.Batch())
  {
    hide Head, Free, InFlightCus;
    assert [StartHead][1..] == [];
  }

  /** The batches are what the execute messages carry. */
  lemma {:induction false} SentExecutes(w: World, sent: seq<Sent>)
    requires Possible(w, Heads(|sent|)) && |sent| <= |Merged(w.checked, w.bundles)|
    requires forall i | 0 <= i < |sent| :: sent[i].transactions == Merged(w.checked, w.bundles)[i].Batch()
    ensures Run(w, Heads(|sent|)).executes == w.executes + multiset(Flat(Transactions(sent)))
    decreases |sent|
  {
    hide Apply, Enabled, Merged, Head, Heads, Possible, Run, Candidate.Batch;
    if sent == [] {
      NothingStarted(w);
    } else {
      var n := |sent| - 1;
      HeadsAppend(n);
      SplitRun(w, Heads(n), [StartHead]);
      SentExecutes(w, sent[..n]);
      PickedIsPrefix(w, n);
      var now := Run(w, Heads(n));
      MergedHead(now.checked, now.bundles);
      OneStart(now, Merged(w.checked, w.bundles)[n]);
      TransactionsSnoc(sent);
    }
  }

  lemma NothingStarted(w: World)
    ensures Possible(w, Heads(0)) && Run(w, Heads(0)) == w
  {
  }

  /** What leaves the containers is what is sent, batch by batch, whole; it is what the new
      execute messages carry; and it comes before everything that goes on waiting. */
  lemma SentInWords(w: World, now: World, sent: seq<Sent>, idle: seq<bool>, end: nat, limit: nat, used: nat)
    requires Progress(w, now, sent, idle, end, limit, used)
    ensures SentFrom(sent, idle, w.checked - now.checked, w.bundles - now.bundles)
    ensures |w.checked - now.checked| + |w.bundles - now.bundles| == |sent|
    ensures now.executes == w.executes + multiset(Flat(Transactions(sent)))
    ensures AllBefore(w.checked - now.checked, w.bundles - now.bundles, now.checked, now.bundles)
  {
    hide Possible, Run, Merged, Waits, AllBefore, TakenFrom, Candidate.Batch;
    SentExecutes(w, sent);
    PickedIsPrefix(w, |sent|);
    SplitMerge(w.checked, w.bundles, now.checked, now.bundles, |sent|);
    forall i | 0 <= i < |sent| ensures TakenFrom(sent[i].transactions, w.checked - now.checked, w.bundles - now.bundles) {
      BatchIsTaken(Merged(w.checked, w.bundles)[i], w.checked - now.checked, w.bundles - now.bundles);
    }
  }

  /** Whatever waits in the first pair of containers goes before whatever does in the second. */
  ghost predicate AllBefore(checked: set<PriorityId>, bundles: set<BundleId>, checked': set<PriorityId>, bundles': set<BundleId>) {
    forall c, d | Waits(c, checked, bundles) && Waits(d, checked', bundles') :: Before(c, d)
  }

  lemma SplitOrder(all: seq<Candidate>, n: nat)
    requires n <= |all| && forall i, j | 0 <= i < j < |all| :: Before(all[i], all[j])
    ensures forall i, d | 0 <= i < n && d in all[n..] :: all[i] != d && Before(all[i], d)
    ensures forall c | c in all && c !in all[n..] :: c in all[..n]
  {
    hide Before;
    forall i, d | 0 <= i < n && d in all[n..] ensures all[i] != d && Before(all[i], d) {
      var j :| 0 <= j < |all| - n && all[n..][j] == d;
      assert all[n + j] == d;
      NotBeforeItself(d);
    }
    assert all == all[..n] + all[n..];
  }

  lemma FewerWait(checked: set<PriorityId>, bundles: set<BundleId>, checked': set<PriorityId>, bundles': set<BundleId>)
    requires forall c | Waits(c, checked', bundles') :: Waits(c, checked, bundles)
    ensures checked' <= checked && bundles' <= bundles
    ensures |checked - checked'| + |bundles - bundles'| == |checked| + |bundles| - |checked'| - |bundles'|
    ensures forall c :: Waits(c, checked - checked', bundles - bundles') <==> Waits(c, checked, bundles) && !Waits(c, checked', bundles')
  {
    forall m | m in checked' ensures m in checked {
      assert Waits(Single(m), checked', bundles');
    }
    forall b | b in bundles' ensures b in bundles {
      assert Waits(Pack(b), checked', bundles');
    }
    assert checked == checked' + (checked - checked') && bundles == bundles' + (bundles - bundles');
  }

  /** What a prefix of the merge takes, and what stays. */
  lemma SplitMerge(checked: set<PriorityId>, bundles: set<BundleId>, checked': set<PriorityId>, bundles': set<BundleId>, n: nat)
    requires n <= |Merged(checked, bundles)| && Merged(checked', bundles') == Merged(checked, bundles)[n..]
    ensures forall i | 0 <= i < n :: Waits(Merged(checked, bundles)[i], checked - checked', bundles - bundles')
    ensures |checked - checked'| + |bundles - bundles'| == n
    ensures AllBefore(checked - checked', bundles - bundles', checked', bundles')
  {
    var all := Merged(checked, bundles);
    MergedIsSorted(checked, bundles);
    MergedIsSorted(checked', bundles');
    hide Merged, Waits, Before;
    SplitOrder(all, n);
    forall c | Waits(c, checked', bundles') ensures Waits(c, checked, bundles) {
      assert c in all[n..];
    }
    FewerWait(checked, bundles, checked', bundles');
  }

  lemma NotBeforeItself(c: Candidate)
    ensures !Before(c, c)
  {
    if c.Pack? && BundleBelow(c.bundle, c.bundle) {
      BundleOrder(c.bundle, c.bundle);
    }
  }

  /** As many distinct idle workers as there are: all of them. */
  lemma {:induction false} AllServed(workers: seq<nat>, idle: seq<bool>, from: nat)
    requires forall i | 0 <= i < |workers| :: from <= workers[i] < |idle| && idle[workers[i]]
    requires forall i, j | 0 <= i < j < |workers| :: workers[i] < workers[j]
    ensures |workers| <= IdleWorkers(idle, from)
    ensures |workers| == IdleWorkers(idle, from) ==> forall i | from <= i < |idle| && idle[i] :: i in workers
    decreases |idle| - from
  {
    assert workers != [] ==> from <= workers[0] < |idle|;
    if from < |idle| {
      if workers != [] && workers[0] == from {
        AllServed(workers[1..], idle, from + 1);
        forall i | from <= i < |idle| && idle[i] && |workers| == IdleWorkers(idle, from) ensures i in workers {
          assert i != from ==> i in workers[1..];
        }
      } else {
        AllServed(workers, idle, from + 1);
        assert idle[from] ==> |workers| < IdleWorkers(idle, from);
      }
    }
  }

  lemma SpareMeansFewer(sent: seq<Sent>, idle: seq<bool>)
    requires forall i | 0 <= i < |sent| :: EXECUTE_WORKER_START <= sent[i].worker < |idle| && idle[sent[i].worker]
    requires forall i, j | 0 <= i < j < |sent| :: sent[i].worker < sent[j].worker
    requires Spare(idle, sent)
    ensures |sent| != IdleWorkers(idle, EXECUTE_WORKER_START)
  {
    var workers := seq(|sent|, i requires 0 <= i < |sent| => sent[i].worker);
    AllServed(workers, idle, EXECUTE_WORKER_START);
    var i :| 1 <= i < |idle| && idle[i] && forall j | 0 <= j < |sent| :: sent[j].worker != i;
    assert forall j | 0 <= j < |workers| :: workers[j] == sent[j].worker;
    assert i !in workers;
  }

  /** What comes before everything else that waits is the head. */
  lemma FirstIsHead(checked: set<PriorityId>, bundles: set<BundleId>, c: Candidate)
    requires Waits(c, checked, bundles) && forall d | Waits(d, checked, bundles) && d != c :: Before(c, d)
    ensures Head(checked, bundles) == Some(c)
  {
    HeadIsFirst(checked, bundles, c);
    var head := Head(checked, bundles).value;
    if head != c {
      if head.Pack? && c.Pack? {
        BundleOrder(head.bundle, c.bundle);
      }
    }
  }

  lemma ToldByBlocked(w: World, c: Candidate, inFlight: nat, slotProgress: nat, blockFillCutoff: nat, remainingCostUnits: nat)
    requires Blocked(w, c, SatSub(BudgetLimit(slotProgress, blockFillCutoff), UsedUnits(remainingCostUnits) + inFlight))
    requires Head(w.checked, w.bundles) == Some(c)
    ensures NothingMoreFits(w, inFlight, slotProgress, blockFillCutoff, remainingCostUnits)
  {
    ShareIs(inFlight + c.Cost(), slotProgress, blockFillCutoff, remainingCostUnits);
    hide WithinShare, UsedUnits, BudgetLimit, Conflict;
    forall d | Waits(d, w.checked, w.bundles) && forall e | Waits(e, w.checked, w.bundles) && e != d :: Before(d, e) ensures d == c {
      FirstIsHead(w.checked, w.bundles, d);
    }
  }

  lemma ToldByBudget(w: World, inFlight: nat, slotProgress: nat, blockFillCutoff: nat, remainingCostUnits: nat)
    requires SatSub(BudgetLimit(slotProgress, blockFillCutoff), UsedUnits(remainingCostUnits) + inFlight) == 0
    ensures NothingMoreFits(w, inFlight, slotProgress, blockFillCutoff, remainingCostUnits)
  {
    ShareIs(inFlight + 1, slotProgress, blockFillCutoff, remainingCostUnits);
  }

  lemma ToldByEmptiness(w: World, inFlight: nat, slotProgress: nat, blockFillCutoff: nat, remainingCostUnits: nat)
    requires w.checked == {} && w.bundles == {}
    ensures NothingMoreFits(w, inFlight, slotProgress, blockFillCutoff, remainingCostUnits)
  {
  }

  /** The reasons to stop, in numbers: with an idle worker left, nothing more fits. */
  lemma StopsInNumbers(w: World, now: World, sent: seq<Sent>, idle: seq<bool>, end: nat,
                       slotProgress: nat, blockFillCutoff: nat, remainingCostUnits: nat)
    requires Progress(w, now, sent, idle, end, BudgetLimit(slotProgress, blockFillCutoff), UsedUnits(remainingCostUnits))
    requires StopsFor(w, now, sent, idle, end, BudgetLimit(slotProgress, blockFillCutoff), UsedUnits(remainingCostUnits))
    ensures sent != [] ==>
      && InFlightCus(now) <= remainingCostUnits
      && 100 * ((if remainingCostUnits < MAX_BLOCK_UNITS then MAX_BLOCK_UNITS - remainingCostUnits else 0) + InFlightCus(now))
         <= MAX_BLOCK_UNITS * (if slotProgress + blockFillCutoff < 100 then slotProgress + blockFillCutoff else 100)
    ensures Spare(idle, sent) ==> NothingMoreFits(now, InFlightCus(now), slotProgress, blockFillCutoff, remainingCostUnits)
  {
    hide Possible, Run, Merged, Blocked, InFlightCus, Heads, IdleWorkers, UsedUnits, BudgetLimit, WithinShare, NothingMoreFits, Spare;
    ShareIs(InFlightCus(now), slotProgress, blockFillCutoff, remainingCostUnits);
    ShareInWords(InFlightCus(now), slotProgress, blockFillCutoff, remainingCostUnits);
    if Spare(idle, sent) {
      SpareMeansFewer(sent, idle);
      PickedIsPrefix(w, |sent|);
      var limit, used := BudgetLimit(slotProgress, blockFillCutoff), UsedUnits(remainingCostUnits);
      var budget := SatSub(limit, used + InFlightCus(now));
      var merged := Merged(w.checked, w.bundles);
      MergedHead(now.checked, now.bundles);
      if budget == 0 {
        ToldByBudget(now, InFlightCus(now), slotProgress, blockFillCutoff, remainingCostUnits);
      } else if |sent| == |merged| {
        ToldByEmptiness(now, InFlightCus(now), slotProgress, blockFillCutoff, remainingCostUnits);
      } else {
        ToldByBlocked(now, merged[|sent|], InFlightCus(now), slotProgress, blockFillCutoff, remainingCostUnits);
      }
    }
  }

  /** What a round of scheduling comes to. */
  lemma RoundInWords(w: World, now: World, sent: seq<Sent>, idle: seq<bool>, end: nat,
                     slotProgress: nat, blockFillCutoff: nat, remainingCostUnits: nat)
    requires Progress(w, now, sent, idle, end, BudgetLimit(slotProgress, blockFillCutoff), UsedUnits(remainingCostUnits))
    requires StopsFor(w, now, sent, idle, end, BudgetLimit(slotProgress, blockFillCutoff), UsedUnits(remainingCostUnits))
    ensures sent != [] ==>
      && InFlightCus(now) <= remainingCostUnits
      && 100 * ((if remainingCostUnits < MAX_BLOCK_UNITS then MAX_BLOCK_UNITS - remainingCostUnits else 0) + InFlightCus(now))
         <= MAX_BLOCK_UNITS * (if slotProgress + blockFillCutoff < 100 then slotProgress + blockFillCutoff else 100)
    ensures Spare(idle, sent) ==> NothingMoreFits(now, InFlightCus(now), slotProgress, blockFillCutoff, remainingCostUnits)
    ensures SentFrom(sent, idle, w.checked - now.checked, w.bundles - now.bundles)
    ensures |w.checked - now.checked| + |w.bundles - now.bundles| == |sent|
    ensures now.executes == w.executes + multiset(Flat(Transactions(sent)))
    ensures AllBefore(w.checked - now.checked, w.bundles - now.bundles, now.checked, now.bundles)
  {
    hide Progress, StopsFor, SentFrom, AllBefore, Transactions, Flat, Spare, NothingMoreFits, InFlightCus, BudgetLimit, UsedUnits;
    StopsInNumbers(w, now, sent, idle, end, slotProgress, blockFillCutoff, remainingCostUnits);
    SentInWords(w, now, sent, idle, end, BudgetLimit(slotProgress, blockFillCutoff), UsedUnits(remainingCostUnits));
  }
}
