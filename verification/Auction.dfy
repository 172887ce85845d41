/** What the auction scheduler's choices mean: out of order for transactions, all or nothing
    for bundles, over the lock manager's key-to-mode maps. */
module Auction {
  import opened Orders
  import opened Locks
  import opened Protocol
  import opened Ingest
  import opened Schedule
  import opened Merge
  import opened LockManagers
  import opened Tips
  import opened Invariant
  import opened Capacity
  import opened QueueDepths
  import opened Sequences

  /** The transaction conflicts with none of the holders. */
  ghost predicate FreeOf(holders: set<Key>, txs: map<Key, Tx>, k: Key) {
    k in txs && holders <= txs.Keys && forall h | h in holders :: !Conflict(txs[k].locks, txs[h].locks)
  }

  /** Fits the budget, and conflicts with nothing that holds locks. */
  ghost predicate Eligible(m: PriorityId, budget: nat, holders: set<Key>, txs: map<Key, Tx>) {
    m.cost <= budget && FreeOf(holders, txs, m.key)
  }

  ghost predicate PairwiseFree(keys: seq<Key>, txs: map<Key, Tx>) {
    forall i, j | 0 <= i < j < |keys| :: keys[i] in txs && keys[j] in txs && !Conflict(txs[keys[i]].locks, txs[keys[j]].locks)
  }

  ghost predicate AllFreeOf(keys: seq<Key>, holders: set<Key>, txs: map<Key, Tx>) {
    forall i | 0 <= i < |keys| :: FreeOf(holders, txs, keys[i])
  }

  /** A bundle can start: it fits, and conflicts neither with a holder nor within itself. */
  ghost predicate BundleStarts(b: BundleId, budget: nat, holders: set<Key>, txs: map<Key, Tx>) {
    b.cost <= budget && AllFreeOf(b.keys, holders, txs) && PairwiseFree(b.keys, txs)
  }

  /** The lock map lists exactly the locks of the holders, and no two of them conflict. */
  ghost predicate Indexed(m: LockMap, holders: set<Key>, txs: map<Key, Tx>) {
    Exact(Abs(m), holders, txs) && Compatible(holders, txs)
  }

  /** What waits is known to the bridge, executes not yet, and waits in one place only. */
  ghost predicate Waiting(txs: map<Key, Tx>, checked: set<PriorityId>, bundles: set<BundleId>, executing: set<Key>) {
    && (forall k | k in txs :: DistinctAccounts(txs[k].locks))
    && (forall m | m in checked :: m.key in txs && m.key !in executing)
    && (forall m, n | m in checked && n in checked && m.key == n.key :: m == n)
    && (forall b | b in bundles :: b.keys != [] && DistinctKeys(b.keys))
    && (forall b, k | b in bundles && k in b.keys :: k in txs && k !in executing)
    && (forall b, m | b in bundles && m in checked :: m.key !in b.keys)
    && (forall b, c, k | b in bundles && c in bundles && k in b.keys && k in c.keys :: b == c)
  }

  // ---- Facts about the index ----

  lemma IndexedFacts(m: LockMap, holders: set<Key>, txs: map<Key, Tx>, k: Key)
    requires Indexed(m, holders, txs) && k in txs && k !in holders && DistinctAccounts(txs[k].locks)
    ensures CanAcquire(m, txs[k].locks) <==> FreeOf(holders, txs, k)
    ensures FreeOf(holders, txs, k) ==> Indexed(Acquired(m, k, txs[k].locks), holders + {k}, txs)
  {
    AcquireKeepsExact(m, holders, txs, k);
    if FreeOf(holders, txs, k) {
      CompatibleGrows(holders, txs, k);
    }
  }

  /** What a call to acquire does to the index. */
  lemma AcquireIndexed(m: LockMap, holders: set<Key>, txs: map<Key, Tx>, k: Key)
    requires Indexed(m, holders, txs) && k in txs && k !in holders && DistinctAccounts(txs[k].locks)
    ensures Indexed(AfterCall(m, Acquire(k, txs[k].locks)), if FreeOf(holders, txs, k) then holders + {k} else holders, txs)
  {
    IndexedFacts(m, holders, txs, k);
  }

  lemma ReleaseIndexed(m: LockMap, holders: set<Key>, txs: map<Key, Tx>, k: Key)
    requires Indexed(m, holders, txs) && k in txs && DistinctAccounts(txs[k].locks)
    ensures Indexed(Released(m, k, txs[k].locks), holders - {k}, txs)
  {
    ReleaseKeepsExact(m, holders, txs, k);
  }

  lemma {:induction false} HoldersFromSplit(h1: Holders, h2: Holders)
    requires Split(h1) == Split(h2)
    ensures h1 == h2
  {
    forall k
      ensures k in h1 <==> k in h2
      ensures k in h1 && k in h2 ==> h1[k] == h2[k]
    {
      assert k in Split(h1).writers <==> k in Split(h2).writers;
      assert k in Split(h1).readers <==> k in Split(h2).readers;
    }
    assert h1.Keys == h2.Keys;
  }

  /** The lock map is determined by who holds locks: nothing else is left in it. */
  lemma IndexedIsUnique(m1: LockMap, m2: LockMap, holders: set<Key>, txs: map<Key, Tx>)
    requires Indexed(m1, holders, txs) && Indexed(m2, holders, txs)
    ensures m1 == m2
  {
    ExactIsUnique(Abs(m1), Abs(m2), holders, txs);
    AbsHasHolders(m1);
    AbsHasHolders(m2);
    forall a ensures HoldersOf(m1, a) == HoldersOf(m2, a) {
      AbsAt(m1, a);
      AbsAt(m2, a);
      HoldersFromSplit(HoldersOf(m1, a), HoldersOf(m2, a));
    }
    SameHolders(m1, m2);
  }

  /** The index depends on the locks of the holders only. */
  lemma IndexedFrame(m: LockMap, holders: set<Key>, txs: map<Key, Tx>, txs': map<Key, Tx>)
    requires Indexed(m, holders, txs) && holders <= txs'.Keys && forall k | k in holders :: txs'[k] == txs[k]
    ensures Indexed(m, holders, txs')
  {
    ExactFrame(Abs(m), holders, txs, txs');
  }

  /** With the members before `i` holding their locks, member `i` is granted its own
      unless it conflicts with one of them. */
  lemma MemberFree(b: BundleId, i: nat, holders: set<Key>, txs: map<Key, Tx>)
    requires i < |b.keys| && forall j | 0 <= j < |b.keys| :: b.keys[j] in txs && FreeOf(holders, txs, b.keys[j])
    ensures FreeOf(holders + KeySet(b.keys[..i]), txs, b.keys[i]) <==>
      forall j | 0 <= j < i :: !Conflict(txs[b.keys[j]].locks, txs[b.keys[i]].locks)
  {
    var before := b.keys[..i];
    forall j | 0 <= j < i
      ensures b.keys[j] in KeySet(before)
      ensures Conflict(txs[b.keys[j]].locks, txs[b.keys[i]].locks) <==> Conflict(txs[b.keys[i]].locks, txs[b.keys[j]].locks)
    {
      assert before[j] == b.keys[j];
      ConflictIsMutual(txs[b.keys[j]].locks, txs[b.keys[i]].locks);
    }
    forall k | k in KeySet(before) ensures exists j :: 0 <= j < i && b.keys[j] == k {
      var j :| 0 <= j < i && before[j] == k;
      assert b.keys[j] == k;
    }
  }

  lemma NextKey(keys: seq<Key>, i: nat)
    requires DistinctKeys(keys) && i < |keys|
    ensures keys[i] !in KeySet(keys[..i]) && KeySet(keys[..i + 1]) == KeySet(keys[..i]) + {keys[i]}
  {
  }

  // ---- The pick ----

  /** What scheduling looks at and changes. */
  datatype Desk = Desk(
    checked: set<PriorityId>,
    bundles: set<BundleId>,
    holders: set<Key>,
    executing: set<Key>,
    executes: multiset<PriorityId>,
    budget: nat)

  /** The checked transactions that fit the budget and conflict with no holder. */
  ghost function EligibleOf(checked: set<PriorityId>, budget: nat, holders: set<Key>, txs: map<Key, Tx>): set<PriorityId> {
    set m | m in checked && Eligible(m, budget, holders, txs)
  }

  /** Transactions go first when the best one is at least as good as the best bundle. */
  ghost predicate TransactionFirst(checked: set<PriorityId>, bundles: set<BundleId>) {
    checked != {} && (bundles == {} || Last(checked).priority >= LastBundle(bundles).priority)
  }

  /** What a worker gets: the greatest eligible transaction when transactions go first and
      one is eligible; else the top bundle if it starts; else nothing. */
  ghost function Pick(d: Desk, txs: map<Key, Tx>): Option<Candidate> {
    var eligible := EligibleOf(d.checked, d.budget, d.holders, txs);
    if TransactionFirst(d.checked, d.bundles) && eligible != {} then Some(Single(Last(eligible)))
    else if d.bundles != {} && BundleStarts(LastBundle(d.bundles), d.budget, d.holders, txs) then Some(Pack(LastBundle(d.bundles)))
    else None
  }

  // ---- The pick in words ----

  /** The transaction conflicts with no holder. */
  ghost predicate Clear(k: Key, holders: set<Key>, txs: map<Key, Tx>) {
    k in txs ==> forall h | h in holders && h in txs :: !Conflict(txs[k].locks, txs[h].locks)
  }

  ghost predicate MembersClear(b: BundleId, holders: set<Key>, txs: map<Key, Tx>) {
    && (forall i | 0 <= i < |b.keys| :: Clear(b.keys[i], holders, txs))
    && forall i, j | 0 <= i < j < |b.keys| && b.keys[i] in txs && b.keys[j] in txs :: !Conflict(txs[b.keys[i]].locks, txs[b.keys[j]].locks)
  }

  /** A transaction waits, and no bundle has a priority above all of them. */
  ghost predicate TransactionsLead(checked: set<PriorityId>, bundles: set<BundleId>) {
    checked != {} && forall b | b in bundles :: exists m :: m in checked && m.priority >= b.priority
  }

  ghost predicate IsGreatest(b: BundleId, bundles: set<BundleId>) {
    b in bundles && forall c | c in bundles && c != b :: BundleBelow(c, b)
  }

  ghost predicate AllKnown(d: Desk, txs: map<Key, Tx>) {
    && d.holders <= txs.Keys
    && (forall m | m in d.checked :: m.key in txs)
    && forall b, k | b in d.bundles && k in b.keys :: k in txs
  }

  lemma LeadIff(checked: set<PriorityId>, bundles: set<BundleId>)
    ensures TransactionFirst(checked, bundles) <==> TransactionsLead(checked, bundles)
  {
    if checked != {} && bundles != {} {
      var top, best := LastBundle(bundles), Last(checked);
      assert IsLastBundle(bundles, top) && IsLast(checked, best);
      hide Last, LastBundle;
      if TransactionsLead(checked, bundles) {
        var m :| m in checked && m.priority >= top.priority;
        assert AtMost(m, best);
      }
      if best.priority >= top.priority {
        forall b | b in bundles ensures best in checked && best.priority >= b.priority {
          assert b == top || BundleBelow(b, top);
        }
      }
    }
  }

  lemma GreatestIff(b: BundleId, bundles: set<BundleId>)
    ensures IsGreatest(b, bundles) <==> bundles != {} && b == LastBundle(bundles)
  {
    if bundles != {} {
      assert IsLastBundle(bundles, LastBundle(bundles));
      BundleEndsUnique(bundles);
      if IsGreatest(b, bundles) {
        assert IsLastBundle(bundles, b);
      }
    }
  }

  lemma ClearIff(d: Desk, txs: map<Key, Tx>)
    requires AllKnown(d, txs)
    ensures forall m | m in d.checked :: Eligible(m, d.budget, d.holders, txs) <==> m.cost <= d.budget && Clear(m.key, d.holders, txs)
    ensures forall b | b in d.bundles ::
      BundleStarts(b, d.budget, d.holders, txs) <==> b.cost <= d.budget && MembersClear(b, d.holders, txs)
  {
    forall m | m in d.checked ensures FreeOf(d.holders, txs, m.key) <==> Clear(m.key, d.holders, txs) {
      FreeIsClear(m.key, d.holders, txs);
    }
    forall b | b in d.bundles ensures AllFreeOf(b.keys, d.holders, txs) && PairwiseFree(b.keys, txs) <==> MembersClear(b, d.holders, txs) {
      forall i | 0 <= i < |b.keys| ensures b.keys[i] in txs && (FreeOf(d.holders, txs, b.keys[i]) <==> Clear(b.keys[i], d.holders, txs)) {
        assert b.keys[i] in b.keys;
        FreeIsClear(b.keys[i], d.holders, txs);
      }
      hide FreeOf, Clear, Conflict;
    }
  }

  lemma FreeIsClear(k: Key, holders: set<Key>, txs: map<Key, Tx>)
    requires holders <= txs.Keys && k in txs
    ensures FreeOf(holders, txs, k) <==> Clear(k, holders, txs)
  {
    hide Conflict;
  }

  /** What a worker gets, in words: the greatest of the checked transactions that fit and are
      clear of the holders, when transactions lead; else the greatest bundle, when it fits
      and is clear of the holders and within itself; nothing only when neither can be. */
  lemma PickIs(d: Desk, txs: map<Key, Tx>)
    requires AllKnown(d, txs)
    ensures match Pick(d, txs)
      case Some(Single(m)) =>
        && TransactionsLead(d.checked, d.bundles)
        && m in d.checked && m.cost <= d.budget && Clear(m.key, d.holders, txs)
        && forall x | x in d.checked && Below(m, x) :: x.cost > d.budget || !Clear(x.key, d.holders, txs)
      case Some(Pack(b)) =>
        && IsGreatest(b, d.bundles) && b.cost <= d.budget && MembersClear(b, d.holders, txs)
        && (TransactionsLead(d.checked, d.bundles) ==> forall m | m in d.checked :: m.cost > d.budget || !Clear(m.key, d.holders, txs))
      case None =>
        && (TransactionsLead(d.checked, d.bundles) ==> forall m | m in d.checked :: m.cost > d.budget || !Clear(m.key, d.holders, txs))
        && forall b | IsGreatest(b, d.bundles) :: b.cost > d.budget || !MembersClear(b, d.holders, txs)
  {
    hide TransactionFirst, TransactionsLead, IsGreatest, Eligible, BundleStarts, Clear, MembersClear;
    LeadIff(d.checked, d.bundles);
    ClearIff(d, txs);
    forall b ensures IsGreatest(b, d.bundles) <==> d.bundles != {} && b == LastBundle(d.bundles) {
      GreatestIff(b, d.bundles);
    }
    var eligible := EligibleOf(d.checked, d.budget, d.holders, txs);
    assert forall m | m in d.checked :: m in eligible <==> Eligible(m, d.budget, d.holders, txs);
    if eligible != {} {
      assert IsLast(eligible, Last(eligible));
    }
    if d.bundles != {} {
      LastBundleIsIn(d.bundles);
    }
    hide Last, LastBundle, EligibleOf;
  }

  /** The candidate is gone from where it waited; its keys hold locks and execute. */
  ghost function After(d: Desk, c: Candidate): Desk {
    Desk(if c.Single? then d.checked - {c.id} else d.checked,
         if c.Pack? then d.bundles - {c.bundle} else d.bundles,
         d.holders + KeySet(c.Keys()),
         d.executing + KeySet(c.Keys()),
         d.executes + multiset(c.Batch()),
         SatSub(d.budget, c.Cost()))
  }

  /** The state after up to `n` picks in a row. */
  ghost function AfterPicks(d: Desk, txs: map<Key, Tx>, n: nat): Desk {
    if n == 0 then d
    else
      var before := AfterPicks(d, txs, n - 1);
      if Pick(before, txs).None? then before else After(before, Pick(before, txs).value)
  }

  ghost function Picks(d: Desk, txs: map<Key, Tx>, n: nat): seq<Candidate> {
    if n == 0 then []
    else
      var before := AfterPicks(d, txs, n - 1);
      Picks(d, txs, n - 1) + if Pick(before, txs).None? then [] else [Pick(before, txs).value]
  }

  lemma GreatestIsLast(checked: set<PriorityId>, budget: nat, holders: set<Key>, txs: map<Key, Tx>, m: PriorityId)
    requires m in checked && Eligible(m, budget, holders, txs)
    requires forall x | x in checked && Eligible(x, budget, holders, txs) :: AtMost(x, m)
    ensures EligibleOf(checked, budget, holders, txs) != {} && Last(EligibleOf(checked, budget, holders, txs)) == m
  {
    hide Eligible;
    assert m in EligibleOf(checked, budget, holders, txs);
    assert IsLast(EligibleOf(checked, budget, holders, txs), m);
  }

  lemma NoneEligible(checked: set<PriorityId>, budget: nat, holders: set<Key>, txs: map<Key, Tx>)
    requires forall m | m in checked :: !Eligible(m, budget, holders, txs)
    ensures EligibleOf(checked, budget, holders, txs) == {}
  {
  }

  lemma NothingToPick(d: Desk, txs: map<Key, Tx>)
    requires d.checked == {} && d.bundles == {}
    ensures Pick(d, txs).None?
  {
  }

  /** What is picked waits, fits, and conflicts with no holder. */
  lemma PickedIsFree(d: Desk, txs: map<Key, Tx>)
    requires Pick(d, txs).Some?
    ensures var c := Pick(d, txs).value;
      && (if c.Single? then c.id in d.checked else c.bundle in d.bundles)
      && c.Cost() <= d.budget
      && forall k | k in KeySet(c.Keys()) :: FreeOf(d.holders, txs, k)
  {
    var c := Pick(d, txs).value;
    if c.Single? {
      assert c.id in EligibleOf(d.checked, d.budget, d.holders, txs);
    } else {
      forall k | k in KeySet(c.Keys()) ensures FreeOf(d.holders, txs, k) {
        var i :| 0 <= i < |c.bundle.keys| && c.bundle.keys[i] == k;
      }
    }
  }

  /** The head of the merge can start: what the batch scheduler would ask of it, and that a
      bundle has no conflict within itself. */
  ghost predicate HeadStarts(d: Desk, txs: map<Key, Tx>) {
    match Head(d.checked, d.bundles)
    case None => false
    case Some(Single(m)) => Eligible(m, d.budget, d.holders, txs)
    case Some(Pack(b)) => BundleStarts(b, d.budget, d.holders, txs)
  }

  /** When the head can start, it is what is picked. */
  lemma PickIsHead(d: Desk, txs: map<Key, Tx>)
    requires HeadStarts(d, txs)
    ensures Pick(d, txs) == Head(d.checked, d.bundles)
  {
    match Head(d.checked, d.bundles)
    case Some(Single(m)) =>
      assert m == Last(d.checked);
      GreatestIsLast(d.checked, d.budget, d.holders, txs, m);
    case Some(Pack(b)) =>
  }

  /** As long as every head can start, the picks are those of the batch scheduler: the
      first ones of the merge. */
  lemma {:induction false} PicksFollowTheMerge(d: Desk, txs: map<Key, Tx>, n: nat)
    requires forall i: nat | i < n :: HeadStarts(AfterPicks(d, txs, i), txs)
    ensures n <= |Merged(d.checked, d.bundles)| && Picks(d, txs, n) == Merged(d.checked, d.bundles)[..n]
    ensures var d' := AfterPicks(d, txs, n); Merged(d'.checked, d'.bundles) == Merged(d.checked, d.bundles)[n..]
  {
    hide HeadStarts, Head, Merged, Pick, Picks, AfterPicks, After;
    NoPicks(d, txs);
    if n > 0 {
      PicksFollowTheMerge(d, txs, n - 1);
      var before := AfterPicks(d, txs, n - 1);
      assert HeadStarts(before, txs);
      PickIsHead(before, txs);
      StartsHaveHeads(before, txs);
      HeadOfMerge(before.checked, before.bundles);
      OnePickMore(d, txs, n);
      var c := Pick(before, txs).value;
      SliceStep(Merged(d.checked, d.bundles), n, c, Merged(After(before, c).checked, After(before, c).bundles));
    }
  }

  lemma NoPicks(d: Desk, txs: map<Key, Tx>)
    ensures AfterPicks(d, txs, 0) == d && Picks(d, txs, 0) == []
  {
  }

  /** Once nothing can be picked, more turns change nothing. */
  lemma NoPickMore(d: Desk, txs: map<Key, Tx>, n: nat)
    requires n > 0 && Pick(AfterPicks(d, txs, n - 1), txs).None?
    ensures AfterPicks(d, txs, n) == AfterPicks(d, txs, n - 1) && Picks(d, txs, n) == Picks(d, txs, n - 1)
  {
    hide Pick;
  }

  lemma OnePickMore(d: Desk, txs: map<Key, Tx>, n: nat)
    requires n > 0 && Pick(AfterPicks(d, txs, n - 1), txs).Some?
    ensures var before := AfterPicks(d, txs, n - 1); var c := Pick(before, txs).value;
      && Picks(d, txs, n) == Picks(d, txs, n - 1) + [c] && AfterPicks(d, txs, n) == After(before, c)
      && After(before, c).checked == (if c.Single? then before.checked - {c.id} else before.checked)
      && After(before, c).bundles == (if c.Pack? then before.bundles - {c.bundle} else before.bundles)
      && After(before, c).holders == before.holders + KeySet(c.Keys())
      && After(before, c).executing == before.executing + KeySet(c.Keys())
  {
    hide Pick;
  }

  lemma SliceStep<T>(s: seq<T>, n: nat, x: T, rest: seq<T>)
    requires 0 < n <= |s| + 1 && s[n - 1..] == [x] + rest
    ensures n <= |s| && s[..n] == s[..n - 1] + [x] && s[n..] == rest
  {
    assert |s[n - 1..]| > 0;
    assert s[n - 1] == s[n - 1..][0];
    assert s[n..] == s[n - 1..][1..];
  }

  lemma StartsHaveHeads(d: Desk, txs: map<Key, Tx>)
    requires HeadStarts(d, txs)
    ensures Head(d.checked, d.bundles).Some?
  {
  }

  lemma HeadOfMerge(checked: set<PriorityId>, bundles: set<BundleId>)
    requires Head(checked, bundles).Some?
    ensures var c := Head(checked, bundles).value;
      var checked' := if c.Single? then checked - {c.id} else checked;
      var bundles' := if c.Pack? then bundles - {c.bundle} else bundles;
      Merged(checked, bundles) == [c] + Merged(checked', bundles')
  {
  }

  // ---- The worker loop ----

  /** One batch to each of some idle workers, in order. */
  ghost predicate ToIdle(sent: seq<Sent>, idle: seq<bool>, end: nat) {
    && (forall i | 0 <= i < |sent| :: EXECUTE_WORKER_START <= sent[i].worker < end <= |idle| && idle[sent[i].worker])
    && (forall i, j | 0 <= i < j < |sent| :: sent[i].worker < sent[j].worker)
  }

  /** There are no more batches than workers. */
  lemma {:induction false} OneEach(sent: seq<Sent>, idle: seq<bool>, end: nat)
    requires ToIdle(sent, idle, end)
    ensures sent != [] ==> EXECUTE_WORKER_START + |sent| <= end
  {
    if sent != [] {
      var last := sent[|sent| - 1];
      OneEach(sent[..|sent| - 1], idle, last.worker);
    }
  }

  /** The batches are those of the picks, each in the state the ones before it left. */
  ghost predicate Emitted(sent: seq<Sent>, d: Desk, txs: map<Key, Tx>) {
    && |Picks(d, txs, |sent|)| == |sent|
    && forall i | 0 <= i < |sent| :: sent[i].transactions == Picks(d, txs, |sent|)[i].Batch()
  }

  /** What has been sent once the workers below `end` have been looked at. */
  ghost predicate Served(sent: seq<Sent>, idle: seq<bool>, end: nat, d: Desk, txs: map<Key, Tx>, now: Desk) {
    && ToIdle(sent, idle, end)
    && EXECUTE_WORKER_START <= end <= |idle|
    && |sent| + IdleWorkers(idle, end) == IdleWorkers(idle, EXECUTE_WORKER_START)
    && Emitted(sent, d, txs) && now == AfterPicks(d, txs, |sent|)
  }

  lemma ServedStart(idle: seq<bool>, d: Desk, txs: map<Key, Tx>)
    requires |idle| >= EXECUTE_WORKER_START
    ensures Served([], idle, EXECUTE_WORKER_START, d, txs, d)
  {
  }

  lemma ServedSkips(sent: seq<Sent>, idle: seq<bool>, end: nat, d: Desk, txs: map<Key, Tx>, now: Desk)
    requires Served(sent, idle, end, d, txs, now) && end < |idle| && !idle[end]
    ensures Served(sent, idle, end + 1, d, txs, now)
  {
    hide Emitted, AfterPicks;
  }

  lemma ToIdleMore(sent: seq<Sent>, idle: seq<bool>, end: nat, x: Sent)
    requires ToIdle(sent, idle, end) && EXECUTE_WORKER_START <= end < |idle| && idle[end] && x.worker == end
    ensures ToIdle(sent + [x], idle, end + 1)
  {
  }

  lemma EmittedMore(sent: seq<Sent>, d: Desk, txs: map<Key, Tx>, x: Sent)
    requires Emitted(sent, d, txs) && Pick(AfterPicks(d, txs, |sent|), txs).Some?
    requires x.transactions == Pick(AfterPicks(d, txs, |sent|), txs).value.Batch()
    ensures Emitted(sent + [x], d, txs)
  {
    hide Pick, Picks, AfterPicks, After, KeySet, Candidate.Batch;
    OnePickMore(d, txs, |sent| + 1);
  }

  lemma ServedSends(sent: seq<Sent>, idle: seq<bool>, end: nat, d: Desk, txs: map<Key, Tx>, now: Desk)
    requires Served(sent, idle, end, d, txs, now) && end < |idle| && idle[end] && Pick(now, txs).Some?
    ensures var c := Pick(now, txs).value;
      Served(sent + [Sent(end, c.Batch())], idle, end + 1, d, txs, After(now, c))
  {
    hide Pick, Picks, AfterPicks, After, ToIdle, Emitted, KeySet, Candidate.Batch;
    var x := Sent(end, Pick(now, txs).value.Batch());
    OnePickMore(d, txs, |sent| + 1);
    ToIdleMore(sent, idle, end, x);
    EmittedMore(sent, d, txs, x);
  }

  lemma ServedAll(sent: seq<Sent>, idle: seq<bool>, end: nat, d: Desk, txs: map<Key, Tx>, now: Desk)
    requires Served(sent, idle, end, d, txs, now)
    ensures ToIdle(sent, idle, |idle|) && Emitted(sent, d, txs) && now == AfterPicks(d, txs, |sent|)
    ensures end == |idle| ==> |sent| == IdleWorkers(idle, EXECUTE_WORKER_START)
  {
    hide Emitted, AfterPicks;
  }

  lemma SentTo(sent: seq<Sent>, idle: seq<bool>, checked: set<PriorityId>, bundles: set<BundleId>)
    requires ToIdle(sent, idle, |idle|) && forall i | 0 <= i < |sent| :: TakenFrom(sent[i].transactions, checked, bundles)
    ensures SentFrom(sent, idle, checked, bundles)
  {
    hide TakenFrom;
  }

  lemma OnePick(d: Desk, txs: map<Key, Tx>)
    requires Pick(d, txs).Some?
    ensures var c := Pick(d, txs).value; var d' := After(d, c);
      && Waits(c, d.checked, d.bundles) && (forall x :: Waits(x, d'.checked, d'.bundles) <==> Waits(x, d.checked, d.bundles) && x != c)
      && d'.checked <= d.checked && d'.bundles <= d.bundles
      && |d'.checked| + |d'.bundles| + 1 == |d.checked| + |d.bundles|
      && d'.executes == d.executes + multiset(c.Batch())
  {
    hide Last, LastBundle, EligibleOf, BundleStarts, TransactionFirst, Candidate.Batch;
    PickWaits(d, txs);
  }

  lemma PickWaits(d: Desk, txs: map<Key, Tx>)
    requires Pick(d, txs).Some?
    ensures Waits(Pick(d, txs).value, d.checked, d.bundles)
  {
    hide BundleStarts, TransactionFirst;
    assert forall m | m in EligibleOf(d.checked, d.budget, d.holders, txs) :: m in d.checked;
  }

  /** One pick more takes one candidate more out of the containers. */
  lemma OneMoreGone(d: Desk, now: Desk, c: Candidate, d': Desk)
    requires now.checked <= d.checked && now.bundles <= d.bundles && d'.checked <= now.checked && d'.bundles <= now.bundles
    requires Waits(c, now.checked, now.bundles)
    requires forall x :: Waits(x, d'.checked, d'.bundles) <==> Waits(x, now.checked, now.bundles) && x != c
    requires |d'.checked| + |d'.bundles| + 1 == |now.checked| + |now.bundles|
    ensures d'.checked <= d.checked && d'.bundles <= d.bundles
    ensures TakenFrom(c.Batch(), d.checked - d'.checked, d.bundles - d'.bundles)
    ensures |d.checked - d'.checked| + |d.bundles - d'.bundles| == |d.checked - now.checked| + |d.bundles - now.bundles| + 1
  {
    AllWait(d, now);
    AllWait(d, d');
    hide Waits, TakenFrom, Candidate.Batch;
    FewerWait(d.checked, d.bundles, d'.checked, d'.bundles);
    FewerWait(d.checked, d.bundles, now.checked, now.bundles);
    BatchIsTaken(c, d.checked - d'.checked, d.bundles - d'.bundles);
  }

  lemma AllWait(d: Desk, now: Desk)
    requires now.checked <= d.checked && now.bundles <= d.bundles
    ensures forall x | Waits(x, now.checked, now.bundles) :: Waits(x, d.checked, d.bundles)
  {
  }

  /** What leaves the containers is what is sent, batch by batch, whole, and what the new
      execute messages carry. */
  lemma {:induction false} EmittedInWords(d: Desk, txs: map<Key, Tx>, sent: seq<Sent>)
    requires Emitted(sent, d, txs)
    ensures var d' := AfterPicks(d, txs, |sent|);
      && d'.checked <= d.checked && d'.bundles <= d.bundles
      && (forall i | 0 <= i < |sent| :: TakenFrom(sent[i].transactions, d.checked - d'.checked, d.bundles - d'.bundles))
      && |d.checked - d'.checked| + |d.bundles - d'.bundles| == |sent|
      && d'.executes == d.executes + multiset(Flat(Transactions(sent)))
    decreases |sent|
  {
    hide Pick, Picks, AfterPicks, After, Waits, TakenFrom, Emitted, Transactions, Candidate.Batch;
    NoPicks(d, txs);
    if sent == [] {
      NothingEmitted(sent);
    } else {
      var n := |sent| - 1;
      EmittedFewer(d, txs, sent);
      var now := AfterPicks(d, txs, n);
      EmittedInWords(d, txs, sent[..n]);
      OnePickMore(d, txs, |sent|);
      OnePick(now, txs);
      TransactionsSnoc(sent);
      var c, d' := Pick(now, txs).value, AfterPicks(d, txs, |sent|);
      OneMoreGone(d, now, c, d');
      forall i | 0 <= i < n ensures TakenFrom(sent[i].transactions, d.checked - d'.checked, d.bundles - d'.bundles) {
        assert sent[..n][i] == sent[i];
        TakenFromMore(sent[i].transactions, d.checked - now.checked, d.bundles - now.bundles,
                      d.checked - d'.checked, d.bundles - d'.bundles);
      }
    }
  }

  lemma NothingEmitted(sent: seq<Sent>)
    requires sent == []
    ensures multiset(Flat(Transactions(sent))) == multiset{}
  {
  }

  lemma TakenFromMore(batch: seq<PriorityId>, checked: set<PriorityId>, bundles: set<BundleId>,
                      checked': set<PriorityId>, bundles': set<BundleId>)
    requires TakenFrom(batch, checked, bundles) && checked <= checked' && bundles <= bundles'
    ensures TakenFrom(batch, checked', bundles')
  {
  }

  lemma EmittedFewer(d: Desk, txs: map<Key, Tx>, sent: seq<Sent>)
    requires Emitted(sent, d, txs) && sent != []
    ensures var n := |sent| - 1;
      Emitted(sent[..n], d, txs) && Pick(AfterPicks(d, txs, n), txs).Some?
      && sent[n].transactions == Pick(AfterPicks(d, txs, n), txs).value.Batch()
  {
    hide Pick, AfterPicks, After, Candidate.Batch;
    PicksAtMost(d, txs, |sent| - 1);
  }

  lemma {:induction false} PicksAtMost(d: Desk, txs: map<Key, Tx>, n: nat)
    ensures |Picks(d, txs, n)| <= n
  {
    hide Pick, AfterPicks;
    if n > 0 {
      PicksAtMost(d, txs, n - 1);
    }
  }

  /** The keys of the batches. */
  ghost function KeysOfPicks(cs: seq<Candidate>): set<Key> {
    if cs == [] then {} else KeysOfPicks(cs[..|cs| - 1]) + KeySet(cs[|cs| - 1].Keys())
  }

  /** Whatever is picked executes and holds its locks. */
  lemma {:induction false} PicksHoldLocks(d: Desk, txs: map<Key, Tx>, n: nat)
    ensures AfterPicks(d, txs, n).executing == d.executing + KeysOfPicks(Picks(d, txs, n))
    ensures AfterPicks(d, txs, n).holders == d.holders + KeysOfPicks(Picks(d, txs, n))
  {
    hide Pick, Picks, AfterPicks, After, KeysOfPicks;
    NoPicks(d, txs);
    NoKeys();
    if n > 0 {
      PicksHoldLocks(d, txs, n - 1);
      if Pick(AfterPicks(d, txs, n - 1), txs).Some? {
        OnePickMore(d, txs, n);
        KeysOfMore(Picks(d, txs, n - 1), Pick(AfterPicks(d, txs, n - 1), txs).value);
      } else {
        NoPickMore(d, txs, n);
      }
    }
  }

  lemma NoKeys()
    ensures KeysOfPicks([]) == {}
  {
  }

  lemma KeysOfMore(cs: seq<Candidate>, c: Candidate)
    ensures KeysOfPicks(cs + [c]) == KeysOfPicks(cs) + KeySet(c.Keys())
  {
    assert (cs + [c])[..|cs|] == cs;
  }

  lemma AfterExecuting(d: Desk, c: Candidate)
    ensures After(d, c).(executing := d.executing).(executing := d.executing + KeySet(c.Keys())) == After(d, c)
  {
  }

  lemma MembersConflictIff(keys: seq<Key>, holders: set<Key>, declined: set<Key>, txs: map<Key, Tx>)
    requires AllFreeOf(keys, holders, txs)
    ensures OnlyDeclinedInTheWay(KeySet(keys), holders + declined, declined, txs)
  {
    hide FreeOf, OnlyDeclinedInTheWay;
    forall k | k in KeySet(keys) ensures FreeOf(holders, txs, k) {
      var i :| 0 <= i < |keys| && keys[i] == k;
    }
    StartsConflictIff(KeySet(keys), holders, declined, txs);
  }

  lemma NothingSent(keys: set<Key>)
    ensures keys + BatchKeys([]) == keys
  {
  }

  /** Neither a transaction nor a bundle that may be picked fits the share of the block and
      is clear, or not a single unit is left. */
  ghost predicate NothingMoreServed(d: Desk, txs: map<Key, Tx>, inFlight: nat,
                                    slotProgress: nat, blockFillCutoff: nat, remainingCostUnits: nat) {
    || !WithinShare(inFlight + 1, slotProgress, blockFillCutoff, remainingCostUnits)
    || (&& (TransactionsLead(d.checked, d.bundles) ==> forall m | m in d.checked ::
              !WithinShare(inFlight + m.cost, slotProgress, blockFillCutoff, remainingCostUnits) || !Clear(m.key, d.holders, txs))
        && forall b | IsGreatest(b, d.bundles) ::
             !WithinShare(inFlight + b.cost, slotProgress, blockFillCutoff, remainingCostUnits) || !MembersClear(b, d.holders, txs))
  }

  lemma BudgetPlaysNoPart(d: Desk, txs: map<Key, Tx>, inFlight: nat, slotProgress: nat, blockFillCutoff: nat, remainingCostUnits: nat)
    ensures NothingMoreServed(d, txs, inFlight, slotProgress, blockFillCutoff, remainingCostUnits)
       <==> NothingMoreServed(d.(budget := 0), txs, inFlight, slotProgress, blockFillCutoff, remainingCostUnits)
  {
    hide WithinShare, TransactionsLead, IsGreatest, Clear, MembersClear;
  }

  /** The reasons to stop, in numbers. */
  lemma ServedInNumbers(d: Desk, txs: map<Key, Tx>, sent: seq<Sent>, idle: seq<bool>,
                        inFlight: nat, slotProgress: nat, blockFillCutoff: nat, remainingCostUnits: nat)
    requires AllKnown(d, txs) && ToIdle(sent, idle, |idle|)
    requires d.budget == SatSub(BudgetLimit(slotProgress, blockFillCutoff), UsedUnits(remainingCostUnits) + inFlight)
    requires |sent| == IdleWorkers(idle, EXECUTE_WORKER_START) || d.budget == 0 || Pick(d, txs).None?
    ensures Spare(idle, sent) ==> NothingMoreServed(d, txs, inFlight, slotProgress, blockFillCutoff, remainingCostUnits)
  {
    hide Pick, IdleWorkers, UsedUnits, BudgetLimit, WithinShare, TransactionsLead, IsGreatest, Clear, MembersClear, AllKnown, Spare;
    if Spare(idle, sent) {
      SpareMeansFewer(sent, idle);
      PickIs(d, txs);
      ShareIs(inFlight + 1, slotProgress, blockFillCutoff, remainingCostUnits);
      forall m | m in d.checked && m.cost > d.budget > 0
        ensures !WithinShare(inFlight + m.cost, slotProgress, blockFillCutoff, remainingCostUnits)
      {
        ShareIs(inFlight + m.cost, slotProgress, blockFillCutoff, remainingCostUnits);
      }
      forall b | IsGreatest(b, d.bundles) && b.cost > d.budget > 0
        ensures !WithinShare(inFlight + b.cost, slotProgress, blockFillCutoff, remainingCostUnits)
      {
        ShareIs(inFlight + b.cost, slotProgress, blockFillCutoff, remainingCostUnits);
      }
    }
  }

  /** What a round of the auction comes to. */
  lemma ServedInWords(d: Desk, d': Desk, txs: map<Key, Tx>, sent: seq<Sent>, idle: seq<bool>,
                      inFlight: nat, slotProgress: nat, blockFillCutoff: nat, remainingCostUnits: nat)
    requires ToIdle(sent, idle, |idle|) && Emitted(sent, d, txs) && d' == AfterPicks(d, txs, |sent|) && AllKnown(d', txs)
    requires d'.budget == SatSub(BudgetLimit(slotProgress, blockFillCutoff), UsedUnits(remainingCostUnits) + inFlight)
    requires sent != [] ==> UsedUnits(remainingCostUnits) + inFlight <= BudgetLimit(slotProgress, blockFillCutoff)
    requires |sent| == IdleWorkers(idle, EXECUTE_WORKER_START) || d'.budget == 0 || Pick(d', txs).None?
    ensures sent != [] ==>
      && inFlight <= remainingCostUnits
      && 100 * ((if remainingCostUnits < MAX_BLOCK_UNITS then MAX_BLOCK_UNITS - remainingCostUnits else 0) + inFlight)
         <= MAX_BLOCK_UNITS * (if slotProgress + blockFillCutoff < 100 then slotProgress + blockFillCutoff else 100)
    ensures Spare(idle, sent) ==>
      NothingMoreServed(d'.(budget := 0), txs, inFlight, slotProgress, blockFillCutoff, remainingCostUnits)
    ensures SentFrom(sent, idle, d.checked - d'.checked, d.bundles - d'.bundles)
    ensures |d.checked - d'.checked| + |d.bundles - d'.bundles| == |sent|
    ensures d'.executes == d.executes + multiset(Flat(Transactions(sent)))
  {
    hide ToIdle, Emitted, AfterPicks, AllKnown, BudgetLimit, UsedUnits, IdleWorkers, Pick, Spare, SatSub, WithinShare,
      NothingMoreServed, SentFrom, TakenFrom, Transactions, Flat;
    EmittedInWords(d, txs, sent);
    SentTo(sent, idle, d.checked - d'.checked, d.bundles - d'.bundles);
    ServedInNumbers(d', txs, sent, idle, inFlight, slotProgress, blockFillCutoff, remainingCostUnits);
    BudgetPlaysNoPart(d', txs, inFlight, slotProgress, blockFillCutoff, remainingCostUnits);
    ShareIs(inFlight, slotProgress, blockFillCutoff, remainingCostUnits);
    ShareInWords(inFlight, slotProgress, blockFillCutoff, remainingCostUnits);
  }

  // ---- Conflicts with what executes ----

  /** One of these transactions conflicts with transaction `k`. */
  ghost predicate ConflictsAny(keys: set<Key>, txs: map<Key, Tx>, k: Key) {
    k in txs && exists h :: h in keys && h in txs && Conflict(txs[k].locks, txs[h].locks)
  }

  /** What starts is free of the holders, so it conflicts with something that executes
      exactly when it conflicts with something that was declined its locks. */
  lemma StartConflictsIff(holders: set<Key>, declined: set<Key>, txs: map<Key, Tx>, k: Key)
    requires FreeOf(holders, txs, k)
    ensures ConflictsAny(holders + declined, txs, k) <==> ConflictsAny(declined, txs, k)
  {
    if ConflictsAny(declined, txs, k) {
      var h :| h in declined && h in txs && Conflict(txs[k].locks, txs[h].locks);
      assert h in holders + declined;
    }
  }

  ghost predicate OnlyDeclinedInTheWay(keys: set<Key>, executing: set<Key>, declined: set<Key>, txs: map<Key, Tx>) {
    forall k | k in keys :: ConflictsAny(executing, txs, k) <==> ConflictsAny(declined, txs, k)
  }

  lemma StartsConflictIff(keys: set<Key>, holders: set<Key>, declined: set<Key>, txs: map<Key, Tx>)
    requires forall k | k in keys :: FreeOf(holders, txs, k)
    ensures OnlyDeclinedInTheWay(keys, holders + declined, declined, txs)
  {
    hide FreeOf, ConflictsAny;
    forall k | k in keys ensures ConflictsAny(holders + declined, txs, k) <==> ConflictsAny(declined, txs, k) {
      StartConflictsIff(holders, declined, txs, k);
    }
  }

  // ---- Leaving the containers ----

  function BatchKeys(batch: seq<PriorityId>): set<Key> {
    set i | 0 <= i < |batch| :: batch[i].key
  }

  /** The batch's transactions are in no container any more, and not executing yet. */
  ghost predicate Departing(batch: seq<PriorityId>, txs: map<Key, Tx>, checked: set<PriorityId>, bundles: set<BundleId>, executing: set<Key>) {
    && (forall i, j | 0 <= i < j < |batch| :: batch[i].key != batch[j].key)
    && BatchKeys(batch) <= txs.Keys && BatchKeys(batch) !! executing
    && (forall m | m in checked :: m.key !in BatchKeys(batch))
    && (forall b, k | b in bundles && k in b.keys :: k !in BatchKeys(batch))
  }

  lemma TransactionDeparts(txs: map<Key, Tx>, checked: set<PriorityId>, bundles: set<BundleId>, executing: set<Key>, m: PriorityId)
    requires Waiting(txs, checked, bundles, executing) && m in checked
    ensures Departing([m], txs, checked - {m}, bundles, executing) && Waiting(txs, checked - {m}, bundles, executing)
    ensures BatchKeys([m]) == {m.key}
  {
    assert [m][0] == m;
    forall k ensures k in BatchKeys([m]) <==> k == m.key {
      if k == m.key {
        assert [m][0].key == k;
      }
    }
  }

  lemma BundleDeparts(txs: map<Key, Tx>, checked: set<PriorityId>, bundles: set<BundleId>, executing: set<Key>, b: BundleId)
    requires Waiting(txs, checked, bundles, executing) && b in bundles
    ensures Departing(BundleBatch(b), txs, checked, bundles - {b}, executing) && Waiting(txs, checked, bundles - {b}, executing)
    ensures BatchKeys(BundleBatch(b)) == KeySet(b.keys) && b.keys != [] && DistinctKeys(b.keys)
    ensures forall k | k in b.keys :: k in txs && k !in executing && DistinctAccounts(txs[k].locks)
  {
    assert forall i | 0 <= i < |b.keys| :: BundleBatch(b)[i] == BundleMeta(b, i) && BundleMeta(b, i).key == b.keys[i];
    forall k | k in KeySet(b.keys) ensures k in BatchKeys(BundleBatch(b)) {
      var i :| 0 <= i < |b.keys| && b.keys[i] == k;
      assert BundleBatch(b)[i].key == k;
    }
  }

  lemma DepartingKeys(batch: seq<PriorityId>, txs: map<Key, Tx>, checked: set<PriorityId>, bundles: set<BundleId>, executing: set<Key>)
    requires Departing(batch, txs, checked, bundles, executing)
    ensures forall i, j | 0 <= i < j < |batch| :: batch[i].key != batch[j].key
    ensures BatchKeys(batch) !! executing
  {
  }

  lemma HoldersStayApart(holders: set<Key>, declined: set<Key>, executing: set<Key>, batch: seq<PriorityId>)
    requires executing == holders + declined && holders !! declined && BatchKeys(batch) !! executing
    ensures executing + BatchKeys(batch) == holders + BatchKeys(batch) + declined && holders + BatchKeys(batch) !! declined
  {
  }

  lemma BundleCosts(executes: multiset<PriorityId>, b: BundleId)
    requires b.keys != []
    ensures SumCost(executes + multiset(BundleBatch(b))) == SumCost(executes) + b.cost
  {
    SumCostBatch(executes, Pack(b));
  }

  lemma BatchKeysAre(c: Candidate)
    ensures BatchKeys(c.Batch()) == KeySet(c.Keys())
  {
    assert |c.Batch()| == |c.Keys()|;
    assert forall i | 0 <= i < |c.Keys()| :: c.Batch()[i].key == c.Keys()[i];
    forall k | k in KeySet(c.Keys()) ensures k in BatchKeys(c.Batch()) {
      var i :| 0 <= i < |c.Keys()| && c.Keys()[i] == k;
      assert c.Batch()[i].key == k;
    }
  }

  lemma NothingDeparts(txs: map<Key, Tx>, checked: set<PriorityId>, bundles: set<BundleId>, executing: set<Key>)
    ensures Departing([], txs, checked, bundles, executing)
  {
  }

  lemma DepartedWait(batch: seq<PriorityId>, txs: map<Key, Tx>, checked: set<PriorityId>, bundles: set<BundleId>, executing: set<Key>)
    requires Waiting(txs, checked, bundles, executing) && Departing(batch, txs, checked, bundles, executing)
    ensures Waiting(txs, checked, bundles, executing + BatchKeys(batch))
  {
  }

  lemma NextOfBatch(batch: seq<PriorityId>, i: nat)
    requires i < |batch| && forall i, j | 0 <= i < j < |batch| :: batch[i].key != batch[j].key
    ensures batch[i].key !in BatchKeys(batch[..i]) && BatchKeys(batch[..i + 1]) == BatchKeys(batch[..i]) + {batch[i].key}
    ensures batch[i].key in BatchKeys(batch)
  {
  }

  // ---- Tips ----

  /** The locks that matter of an ordinary pair: both tips write the account of the one that
      pays for them and the account that receives the tips. */
  const PAYER: Account := 1
  const RECEIVER: Account := 2
  const TIP_ACCOUNT: Account := 3

  function OrdinaryTips(key1: Key, key2: Key): TipPair {
    TipPair(key1, [Lock(PAYER, true), Lock(RECEIVER, true)],
            key2, [Lock(RECEIVER, true), Lock(TIP_ACCOUNT, true), Lock(PAYER, true)])
  }

  /** A transaction of somebody else that pays into a tip account. */
  function Tipping(payer: Account): Tx {
    Tx([Lock(payer, true), Lock(TIP_ACCOUNT, true)], 1, 1)
  }

  /** The ordinary pair overlaps itself, and a transaction that pays a tip conflicts with
      the second one only. */
  lemma OrdinaryConflicts(key1: Key, key2: Key, payer: Account)
    requires payer > TIP_ACCOUNT
    ensures var t := OrdinaryTips(key1, key2);
      && DistinctAccounts(t.locks1) && DistinctAccounts(t.locks2) && DistinctAccounts(Tipping(payer).locks)
      && Conflict(t.locks1, t.locks2) && Conflict(Tipping(payer).locks, t.locks2) && !Conflict(Tipping(payer).locks, t.locks1)
  {
    var t := OrdinaryTips(key1, key2);
    assert ClashOn(t.locks1, t.locks2, PAYER) by {
      assert t.locks1[0] == Lock(PAYER, true) && t.locks2[2] == Lock(PAYER, true);
    }
    assert ClashOn(Tipping(payer).locks, t.locks2, TIP_ACCOUNT) by {
      assert Tipping(payer).locks[1] == Lock(TIP_ACCOUNT, true) && t.locks2[1] == Lock(TIP_ACCOUNT, true);
    }
  }

  lemma TipsArrive(m: LockMap, holders: set<Key>, txs: map<Key, Tx>, checked: set<PriorityId>, bundles: set<BundleId>,
                   executing: set<Key>, t: TipPair)
    requires Indexed(m, holders, txs) && Waiting(txs, checked, bundles, executing) && holders <= executing <= txs.Keys
    requires t.Fresh(txs)
    ensures var txs' := txs + map[t.key1 := t.Tx1(), t.key2 := t.Tx2()];
      && Indexed(m, holders, txs')
      && Waiting(txs', checked, bundles, executing)
      && Unplaced(t.key1, checked, bundles, executing) && Unplaced(t.key2, checked, bundles, executing)
      && FreeOf(holders, txs', t.key1) == FreeOf(holders, txs + map[t.key1 := t.Tx1()], t.key1)
      && DistinctAccounts(txs'[t.key1].locks) && DistinctAccounts(txs'[t.key2].locks)
      && forall k | k in executing :: k in txs' && txs'[k] == txs[k]
  {
    IndexedFrame(m, holders, txs, txs + map[t.key1 := t.Tx1(), t.key2 := t.Tx2()]);
  }

  /** A tip conflicts with one of these transactions. */
  ghost predicate ClashesWith(keys: set<Key>, txs: map<Key, Tx>, t: TipPair) {
    exists h :: h in keys && h in txs && (Conflict(txs[h].locks, t.locks1) || Conflict(txs[h].locks, t.locks2))
  }

  /** With the first tip holding its locks, the second is granted its own exactly when it
      is free of the holders before and does not overlap the first. */
  lemma SecondIsFreeIff(holders: set<Key>, txs: map<Key, Tx>, t: TipPair)
    requires t.key1 in txs && t.key2 in txs && txs[t.key1] == t.Tx1() && txs[t.key2] == t.Tx2()
    ensures FreeOf(holders + {t.key1}, txs, t.key2) <==> FreeOf(holders, txs, t.key2) && !Conflict(t.locks1, t.locks2)
  {
    ConflictIsMutual(t.locks1, t.locks2);
    if FreeOf(holders, txs, t.key2) && !Conflict(t.locks1, t.locks2) {
      assert forall h | h in holders + {t.key1} :: h in holders || h == t.key1;
    }
    if FreeOf(holders + {t.key1}, txs, t.key2) {
      assert forall h | h in holders :: h in holders + {t.key1};
      assert t.key1 in holders + {t.key1};
    }
  }

  lemma CommonWriteOverlaps(l1: seq<Lock>, l2: seq<Lock>)
    ensures (exists a :: Writes(l1, a) && Writes(l2, a)) ==> Conflict(l1, l2)
  {
    if a :| Writes(l1, a) && Writes(l2, a) {
      assert ClashOn(l1, l2, a);
    }
  }

  /** With the first tip free of the holders, the pair clashes with what executes exactly
      when the second is not free of them, or something that executes without locks is in
      the way. */
  lemma ClashIff(holders: set<Key>, declined: set<Key>, txs: map<Key, Tx>, t: TipPair)
    requires FreeOf(holders, txs, t.key1) && t.key2 in txs && txs[t.key1] == t.Tx1() && txs[t.key2] == t.Tx2()
    ensures ClashesWith(holders + declined, txs, t) <==> !FreeOf(holders, txs, t.key2) || ClashesWith(declined, txs, t)
  {
    forall h | h in holders ensures !Conflict(txs[h].locks, t.locks1) {
      ConflictIsMutual(txs[t.key1].locks, txs[h].locks);
    }
    forall h | h in holders ensures Conflict(txs[h].locks, t.locks2) <==> Conflict(t.locks2, txs[h].locks) {
      ConflictIsMutual(t.locks2, txs[h].locks);
    }
    if !FreeOf(holders, txs, t.key2) {
      var h :| h in holders && Conflict(txs[t.key2].locks, txs[h].locks);
      assert h in holders + declined && Conflict(txs[h].locks, t.locks2);
    }
    if ClashesWith(declined, txs, t) {
      var h :| h in declined && h in txs && (Conflict(txs[h].locks, t.locks1) || Conflict(txs[h].locks, t.locks2));
      assert h in holders + declined;
    }
  }

  lemma NoneClash(txs: map<Key, Tx>, t: TipPair)
    ensures !ClashesWith({}, txs, t)
  {
  }

  /** A transaction that waits alone, fits and is free is what is picked. */
  lemma PickOnlyOne(d: Desk, txs: map<Key, Tx>, m: PriorityId)
    requires d.checked == {m} && d.bundles == {} && m.cost <= d.budget && FreeOf(d.holders, txs, m.key)
    ensures Pick(d, txs) == Some(Single(m))
  {
    hide FreeOf;
    GreatestIsLast({m}, d.budget, d.holders, txs, m);
  }

  lemma OneIsNowhere(k: Key, executing: set<Key>)
    requires k !in executing
    ensures Unplaced(k, {}, {}, executing)
  {
  }

  lemma NobodyIsPlaced(k: Key)
    ensures Unplaced(k, {}, {}, {})
  {
  }

  lemma FreeOfNobody(txs: map<Key, Tx>, k: Key)
    requires k in txs
    ensures FreeOf({}, txs, k)
  {
  }

  lemma FreeOfFirst(holders: set<Key>, txs: map<Key, Tx>, t: TipPair, k: Key)
    requires holders == {t.key1} && t.key1 in txs && txs[t.key1] == t.Tx1() && k in txs && !Conflict(txs[k].locks, t.locks1)
    ensures FreeOf(holders, txs, k)
  {
  }

  lemma TipsCostNothing(t: TipPair, executes: multiset<PriorityId>)
    requires executes == multiset{MetaOf(t.key1, t.Tx1()), MetaOf(t.key2, t.Tx2())}
    ensures SumCost(executes) == 0
  {
    TipsAreFree(multiset{}, MetaOf(t.key1, t.Tx1()), MetaOf(t.key2, t.Tx2()));
    assert multiset{} + executes == executes;
  }

  /** A bundle of two that conflict with each other is not picked, and leaves its first
      member queued. */
  lemma ClashingPair(d: Desk, txs: map<Key, Tx>, b: BundleId, tx1: Tx, tx2: Tx, depths: Depths)
    requires d.checked == {} && d.bundles == {b} && d.holders == {} && b.cost <= d.budget
    requires |b.keys| == 2 && b.keys[0] in txs && b.keys[1] in txs && txs[b.keys[0]] == tx1 && txs[b.keys[1]] == tx2
    requires Conflict(tx1.locks, tx2.locks)
    ensures Pick(d, txs).None? && LeftQueued(d, txs, depths) == Queued(depths, tx1.locks)
  {
    var ks := b.keys;
    assert LastBundle({b}) == b by {
      LastBundleIsIn({b});
    }
    hide Conflict;
    assert ks[..0 + 1][0] == ks[0] && ks[..1 + 1][0] == ks[0] && ks[..1 + 1][1] == ks[1];
    assert PairwiseFree(ks[..1], txs) && !PairwiseFree(ks[..2], txs);
    StopsAt(ks, txs, 1);
    assert AllFreeOf(ks, {}, txs);
    assert ks[..1] == [ks[0]] && [ks[0]][..0] == [];
    assert LocksOf(ks[..1], txs) == [] + tx1.locks == tx1.locks;
  }

  lemma LastOfOne(m: PriorityId)
    ensures Last({m}) == m
  {
  }

  // ---- Messages that are out ----

  /** No two messages are about the same key, and all are about executing ones. */
  ghost predicate Outstanding(executes: multiset<PriorityId>, executing: set<Key>) {
    && (forall m | m in executes :: m.key in executing && executes[m] == 1)
    && (forall m, n | m in executes && n in executes && m.key == n.key :: m == n)
  }

  lemma OutstandingGrows(executes: multiset<PriorityId>, executing: set<Key>, batch: seq<PriorityId>)
    requires Outstanding(executes, executing) && BatchKeys(batch) !! executing
    requires forall i, j | 0 <= i < j < |batch| :: batch[i].key != batch[j].key
    ensures Outstanding(executes + multiset(batch), executing + BatchKeys(batch))
  {
    assert forall i, j | 0 <= i < j < |batch| :: batch[i] != batch[j];
    DistinctCounts(batch);
    forall m | m in multiset(batch) ensures m.key in BatchKeys(batch) {
      var i :| 0 <= i < |batch| && batch[i] == m;
      assert batch[i].key == m.key;
    }
    forall m, n | m in multiset(batch) && n in multiset(batch) && m.key == n.key ensures m == n {
      var i :| 0 <= i < |batch| && batch[i] == m;
      var j :| 0 <= j < |batch| && batch[j] == n;
    }
  }

  lemma TipsOutstanding(executes: multiset<PriorityId>, executing: set<Key>, t: TipPair)
    requires Outstanding(executes, executing) && t.key1 !in executing && t.key2 !in executing && t.key1 != t.key2
    ensures var both := multiset{MetaOf(t.key1, t.Tx1()), MetaOf(t.key2, t.Tx2())};
      && Outstanding(executes + both, executing + {t.key1, t.key2})
      && SumCost(executes + both) == SumCost(executes)
  {
    TipsAreFree(executes, MetaOf(t.key1, t.Tx1()), MetaOf(t.key2, t.Tx2()));
  }

  lemma OutstandingShrinks(executes: multiset<PriorityId>, executing: set<Key>, m: PriorityId)
    requires Outstanding(executes, executing) && m in executes
    ensures Outstanding(executes - multiset{m}, executing - {m.key})
  {
  }

  // ---- Where a bundle stops ----

  /** How many members, from the first on, are free of each other. */
  ghost function FreePrefix(keys: seq<Key>, txs: map<Key, Tx>): (n: nat)
    ensures n <= |keys|
  {
    if keys == [] then 0
    else
      var n := FreePrefix(keys[..|keys| - 1], txs);
      if n < |keys| - 1 then n else if PairwiseFree(keys, txs) then |keys| else n
  }

  lemma {:induction false} FreePrefixIs(keys: seq<Key>, txs: map<Key, Tx>)
    ensures PairwiseFree(keys[..FreePrefix(keys, txs)], txs)
    ensures FreePrefix(keys, txs) < |keys| ==> !PairwiseFree(keys[..FreePrefix(keys, txs) + 1], txs)
  {
    if keys != [] {
      var front := keys[..|keys| - 1];
      FreePrefixIs(front, txs);
      var n := FreePrefix(front, txs);
      assert keys[..|keys|] == keys;
      assert keys[..n] == front[..n];
      if n < |front| {
        assert keys[..n + 1] == front[..n + 1];
      }
    }
  }

  lemma PrefixesAreFree(keys: seq<Key>, txs: map<Key, Tx>, i: nat, j: nat)
    requires i <= j <= |keys| && PairwiseFree(keys[..j], txs)
    ensures PairwiseFree(keys[..i], txs)
  {
    var less, more := keys[..i], keys[..j];
    forall p, q | 0 <= p < q < |less|
      ensures less[p] in txs && less[q] in txs && !Conflict(txs[less[p]].locks, txs[less[q]].locks)
    {
      assert less[p] == more[p] && less[q] == more[q];
    }
  }

  /** The members before `i` are free of each other, member `i` is not free of them. */
  lemma StopsAt(keys: seq<Key>, txs: map<Key, Tx>, i: nat)
    requires i < |keys| && PairwiseFree(keys[..i], txs) && !PairwiseFree(keys[..i + 1], txs)
    ensures FreePrefix(keys, txs) == i && !PairwiseFree(keys, txs)
  {
    FreePrefixIs(keys, txs);
    var n := FreePrefix(keys, txs);
    hide PairwiseFree, FreePrefix;
    if n > i {
      PrefixesAreFree(keys, txs, i + 1, n);
    } else if n < i {
      PrefixesAreFree(keys, txs, n + 1, i);
    }
    if PairwiseFree(keys, txs) {
      assert keys[..|keys|] == keys;
      PrefixesAreFree(keys, txs, i + 1, |keys|);
    }
  }

  /** One more member is free of those before it, or not. */
  lemma NextMemberFree(keys: seq<Key>, txs: map<Key, Tx>, i: nat)
    requires i < |keys| && PairwiseFree(keys[..i], txs) && forall k | k in keys :: k in txs
    ensures PairwiseFree(keys[..i + 1], txs) <==> forall j | 0 <= j < i :: !Conflict(txs[keys[j]].locks, txs[keys[i]].locks)
  {
    var less, more := keys[..i], keys[..i + 1];
    assert forall j | 0 <= j < i :: less[j] == keys[j] == more[j];
    assert more[i] == keys[i];
    if PairwiseFree(more, txs) {
      forall j | 0 <= j < i ensures !Conflict(txs[keys[j]].locks, txs[keys[i]].locks) {
        assert !Conflict(txs[more[j]].locks, txs[more[i]].locks);
      }
    }
    if forall j | 0 <= j < i :: !Conflict(txs[keys[j]].locks, txs[keys[i]].locks) {
      forall p, q | 0 <= p < q < |more| ensures more[p] in txs && more[q] in txs && !Conflict(txs[more[p]].locks, txs[more[q]].locks) {
        if q < i {
          assert !Conflict(txs[less[p]].locks, txs[less[q]].locks);
        }
      }
    }
  }

  // ---- Locks of several transactions, for the queue depths ----

  function LocksOf(keys: seq<Key>, txs: map<Key, Tx>): seq<Lock> {
    if keys == [] then []
    else
      var k := keys[|keys| - 1];
      LocksOf(keys[..|keys| - 1], txs) + if k in txs then txs[k].locks else []
  }

  lemma NoLocks(txs: map<Key, Tx>)
    ensures LocksOf([], txs) == []
  {
  }

  lemma QueueNext(d: Depths, keys: seq<Key>, txs: map<Key, Tx>, i: nat)
    requires i < |keys| && keys[i] in txs
    ensures Queued(d, LocksOf(keys[..i + 1], txs)) == Queued(Queued(d, LocksOf(keys[..i], txs)), txs[keys[i]].locks)
    ensures Dequeued(d, LocksOf(keys[..i + 1], txs)) == Dequeued(Dequeued(d, LocksOf(keys[..i], txs)), txs[keys[i]].locks)
  {
    assert keys[..i + 1][..i] == keys[..i];
    QueuedAppend(d, LocksOf(keys[..i], txs), txs[keys[i]].locks);
    DequeuedAppend(d, LocksOf(keys[..i], txs), txs[keys[i]].locks);
  }

  /** What a turn that schedules nothing leaves queued: the members of a bundle it had to
      take back. */
  ghost function LeftQueued(d: Desk, txs: map<Key, Tx>, depths: Depths): Depths {
    if d.bundles == {} then depths
    else
      var b := LastBundle(d.bundles);
      if b.cost <= d.budget && AllFreeOf(b.keys, d.holders, txs)
      then Queued(depths, LocksOf(b.keys[..FreePrefix(b.keys, txs)], txs))
      else depths
  }

  /** The locks of the transactions, one list after the other. */
  lemma {:induction false} LocksOfIs(keys: seq<Key>, txs: map<Key, Tx>)
    requires forall k | k in keys :: k in txs
    ensures LocksOf(keys, txs) == Flat(seq(|keys|, i requires 0 <= i < |keys| => txs[keys[i]].locks))
  {
    if keys != [] {
      var n := |keys| - 1;
      LocksOfIs(keys[..n], txs);
      var lists := seq(|keys|, i requires 0 <= i < |keys| => txs[keys[i]].locks);
      assert lists[..n] == seq(n, i requires 0 <= i < n => txs[keys[..n][i]].locks);
      assert lists == lists[..n] + [txs[keys[n]].locks];
    }
  }

  /** The first `n` members do not conflict with each other, the next one does with one of
      them. */
  ghost predicate FreeUpTo(keys: seq<Key>, txs: map<Key, Tx>, n: nat)
    requires forall k | k in keys :: k in txs
  {
    && n <= |keys|
    && (forall i, j | 0 <= i < j < n :: !Conflict(txs[keys[i]].locks, txs[keys[j]].locks))
    && (n < |keys| ==> exists i :: 0 <= i < n && Conflict(txs[keys[i]].locks, txs[keys[n]].locks))
  }

  lemma PrefixIs(keys: seq<Key>, txs: map<Key, Tx>)
    requires forall k | k in keys :: k in txs
    ensures FreeUpTo(keys, txs, FreePrefix(keys, txs))
  {
    FreePrefixIs(keys, txs);
    var n := FreePrefix(keys, txs);
    var front := keys[..n];
    forall i, j | 0 <= i < j < n ensures !Conflict(txs[keys[i]].locks, txs[keys[j]].locks) {
      assert front[i] == keys[i] && front[j] == keys[j];
    }
    if n < |keys| {
      NextMemberFree(keys, txs, n);
    }
  }

  lemma LeftQueuedOf(d: Desk, txs: map<Key, Tx>, depths: Depths, b: BundleId)
    requires AllKnown(d, txs) && d.bundles != {} && b == LastBundle(d.bundles)
    ensures if b.cost <= d.budget && forall k | k in b.keys :: Clear(k, d.holders, txs)
      then FreeUpTo(b.keys, txs, FreePrefix(b.keys, txs))
           && LeftQueued(d, txs, depths) == Queued(depths, LocksOf(b.keys[..FreePrefix(b.keys, txs)], txs))
      else LeftQueued(d, txs, depths) == depths
  {
    LastBundleIsIn(d.bundles);
    PrefixIs(b.keys, txs);
    forall k | k in b.keys ensures Clear(k, d.holders, txs) <==> FreeOf(d.holders, txs, k) {
      FreeIsClear(k, d.holders, txs);
    }
    hide LocksOf, Conflict, FreePrefix, FreeUpTo, Clear, FreeOf, LastBundle;
  }

  /** What is left queued, in words: the members of the greatest bundle up to the first that
      conflicts with one before it, if the bundle fits and they are clear of the holders. */
  lemma LeftQueuedIs(d: Desk, txs: map<Key, Tx>, depths: Depths)
    requires AllKnown(d, txs)
    ensures d.bundles == {} ==> LeftQueued(d, txs, depths) == depths
    ensures forall b | IsGreatest(b, d.bundles) ::
      if b.cost <= d.budget && forall k | k in b.keys :: Clear(k, d.holders, txs)
      then exists n: nat :: FreeUpTo(b.keys, txs, n) && LeftQueued(d, txs, depths) == Queued(depths, LocksOf(b.keys[..n], txs))
      else LeftQueued(d, txs, depths) == depths
  {
    NoneLeft(d, txs, depths);
    hide LeftQueued, Queued, LocksOf, FreePrefix, Conflict, Clear, FreeOf;
    forall b | IsGreatest(b, d.bundles)
      ensures if b.cost <= d.budget && forall k | k in b.keys :: Clear(k, d.holders, txs)
        then exists n: nat :: FreeUpTo(b.keys, txs, n) && LeftQueued(d, txs, depths) == Queued(depths, LocksOf(b.keys[..n], txs))
        else LeftQueued(d, txs, depths) == depths
    {
      GreatestIff(b, d.bundles);
      LeftQueuedOf(d, txs, depths, b);
    }
  }

  lemma NoneLeft(d: Desk, txs: map<Key, Tx>, depths: Depths)
    ensures d.bundles == {} ==> LeftQueued(d, txs, depths) == depths
  {
  }

  // ---- Entering and leaving the containers ----

  /** The key is in no container and does not execute. */
  ghost predicate Unplaced(k: Key, checked: set<PriorityId>, bundles: set<BundleId>, executing: set<Key>) {
    k !in executing && (forall m | m in checked :: m.key != k) && forall b | b in bundles :: k !in b.keys
  }

  lemma ArrivalWaits(txs: map<Key, Tx>, checked: set<PriorityId>, bundles: set<BundleId>, executing: set<Key>, k: Key, tx: Tx)
    requires Waiting(txs, checked, bundles, executing) && k !in txs && DistinctAccounts(tx.locks)
    ensures Waiting(txs[k := tx], checked, bundles, executing)
  {
  }

  lemma ForgottenWaits(txs: map<Key, Tx>, checked: set<PriorityId>, bundles: set<BundleId>, executing: set<Key>, k: Key)
    requires Waiting(txs, checked, bundles, executing) && Unplaced(k, checked, bundles, executing)
    ensures Waiting(txs - {k}, checked, bundles, executing)
  {
  }

  lemma CheckedWaits(txs: map<Key, Tx>, checked: set<PriorityId>, bundles: set<BundleId>, executing: set<Key>, m: PriorityId)
    requires Waiting(txs, checked, bundles, executing) && Unplaced(m.key, checked, bundles, executing) && m.key in txs
    ensures Waiting(txs, checked + {m}, bundles, executing) && m !in checked
  {
  }

  lemma TakenWaits(txs: map<Key, Tx>, checked: set<PriorityId>, bundles: set<BundleId>, executing: set<Key>, m: PriorityId)
    requires Waiting(txs, checked, bundles, executing) && m in checked
    ensures Waiting(txs, checked - {m}, bundles, executing) && Unplaced(m.key, checked - {m}, bundles, executing) && m.key in txs
  {
  }

  lemma BundleWaits(txs: map<Key, Tx>, checked: set<PriorityId>, bundles: set<BundleId>, executing: set<Key>, b: BundleId)
    requires Waiting(txs, checked, bundles, executing) && b.keys != [] && DistinctKeys(b.keys)
    requires forall k | k in b.keys :: k in txs && Unplaced(k, checked, bundles, executing)
    ensures Waiting(txs, checked, bundles + {b}, executing)
  {
  }

  lemma NotInOne(b: BundleId, checked: set<PriorityId>, bundles: set<BundleId>, executing: set<Key>)
    requires b.keys != [] && Unplaced(b.keys[0], checked, bundles, executing)
    ensures b !in bundles
  {
  }

  lemma TakenBundleWaits(txs: map<Key, Tx>, checked: set<PriorityId>, bundles: set<BundleId>, executing: set<Key>, b: BundleId)
    requires Waiting(txs, checked, bundles, executing) && b in bundles
    ensures Waiting(txs, checked, bundles - {b}, executing) && DistinctKeys(b.keys)
    ensures forall k | k in b.keys :: k in txs && Unplaced(k, checked, bundles - {b}, executing)
  {
  }

  /** Two keys that are nowhere may execute. */
  lemma PlacedInTwo(txs: map<Key, Tx>, checked: set<PriorityId>, bundles: set<BundleId>, executing: set<Key>, k1: Key, k2: Key)
    requires Waiting(txs, checked, bundles, executing) && k1 in txs && k2 in txs
    requires Unplaced(k1, checked, bundles, executing) && Unplaced(k2, checked, bundles, executing)
    ensures Waiting(txs, checked, bundles, executing + {k1, k2})
    ensures DistinctAccounts(txs[k1].locks) && DistinctAccounts(txs[k2].locks)
  {
  }

  /** What an execute message that is out says about its transaction. */
  lemma AnsweredExecutes(txs: map<Key, Tx>, checked: set<PriorityId>, bundles: set<BundleId>, executing: set<Key>,
                         executes: multiset<PriorityId>, m: PriorityId)
    requires Waiting(txs, checked, bundles, executing) && Outstanding(executes, executing) && executing <= txs.Keys && m in executes
    ensures m.key in executing && m.key in txs && DistinctAccounts(txs[m.key].locks)
  {
  }

  lemma FinishedWaits(txs: map<Key, Tx>, checked: set<PriorityId>, bundles: set<BundleId>, executing: set<Key>, k: Key)
    requires Waiting(txs, checked, bundles, executing) && k in executing
    ensures Waiting(txs, checked, bundles, executing - {k}) && Unplaced(k, checked, bundles, executing - {k})
  {
  }
}
