/** What the invariant gives over every run of the scheduler. */
module Theorems {
  import opened Orders
  import opened Locks
  import opened Protocol
  import opened Invariant
  import opened Steps
  import opened Capacity

  function Count(b: bool): nat {
    if b then 1 else 0
  }

  /** The transaction's only trace is the check message it was sent off with. */
  predicate Awaiting(w: World, m: PriorityId) {
    m in w.checks && IsFirstCheck(w, m)
  }

  /** How many of the six places a key is in. */
  ghost function Places(w: World, k: Key): nat
    requires k in w.txs
  {
    var m := Meta(w, k);
    Count(m in w.unchecked) + Count(Awaiting(w, m)) + Count(m in w.checked)
    + Count(k in w.executing) + Count(m in w.deferred) + Count(InBundle(w.bundles, k))
  }

  predicate ExactlyOne(a: bool, b: bool, c: bool, d: bool, e: bool, f: bool) {
    if a then !(b || c || d || e || f)
    else if b then !(c || d || e || f)
    else if c then !(d || e || f)
    else if d then !(e || f)
    else e != f
  }

  /** One place means: unchecked, out for its first check, checked, executing, deferred or
      in a waiting bundle, and none of the others. */
  lemma OnePlaceMeans(w: World, k: Key)
    requires k in w.txs
    ensures var m := Meta(w, k);
      var out := m in w.checks && m !in w.checked && m !in w.deferred && k !in w.executing;
      var bundled := exists b :: b in w.bundles && k in b.keys;
      Places(w, k) == 1 <==> ExactlyOne(m in w.unchecked, out, m in w.checked, k in w.executing, m in w.deferred, bundled)
  {
    var bundled := exists b :: b in w.bundles && k in b.keys;
    assert bundled <==> InBundle(w.bundles, k);
    hide InBundle;
  }

  lemma OnePlaceEach(w: World)
    requires Sound(w, {})
    ensures forall k | k in w.txs :: Places(w, k) == 1
    ensures forall m | Awaiting(w, m) :: w.checks[m] == 1
    ensures forall k | k in w.executing :: w.executes[Meta(w, k)] == 1
  {
    forall k | k in w.txs ensures Places(w, k) == 1 {
      var m := Meta(w, k);
      assert Somewhere(w, k, m);
      if InBundle(w.bundles, k) {
        var b :| b in w.bundles && k in b.keys;
        var i :| 0 <= i < |b.keys| && b.keys[i] == k;
        assert m == BundleMeta(b, i);
      }
    }
  }

  /** In every reachable state each live key is in exactly one of the six places, its
      first check message is unique, and so is the execute message of an executing key. */
  lemma ExactlyOnePlace(cfg: Config, es: seq<Event>)
    requires Possible(Init(cfg), es)
    ensures var w := Run(Init(cfg), es);
      && (forall k | k in w.txs :: Places(w, k) == 1)
      && (forall m | Awaiting(w, m) :: w.checks[m] == 1)
      && (forall k | k in w.executing :: k in w.txs && w.executes[Meta(w, k)] == 1)
  {
    InitInv(cfg);
    RunKeepsInv(Init(cfg), es);
    var w := Run(Init(cfg), es);
    assert Sound(w, {});
    OnePlaceEach(w);
    ExecutingApart(w);
    hide Sound, Possible, Run;
  }

  // ---- A late recheck never brings a transaction back ----

  /** The key has had its first check. */
  ghost predicate Settled(w: World, k: Key) {
    k in w.txs && Meta(w, k) !in w.unchecked && !Awaiting(w, Meta(w, k))
  }

  /** Past its first check, a live key is checked, deferred, executing or in a bundle. */
  ghost predicate AtHome(w: World, k: Key) {
    k in w.txs && (Meta(w, k) in w.checked || Meta(w, k) in w.deferred || k in w.executing || InBundle(w.bundles, k))
  }

  lemma SettledIsAtHome(w: World, k: Key)
    requires Sound(w, {})
    ensures Settled(w, k) <==> AtHome(w, k)
  {
    OnePlaceEach(w);
    if k in w.txs {
      assert Places(w, k) == 1;
    }
    hide Sound;
  }

  ghost predicate StaysHome(w: World, w': World, k: Key) {
    k in w'.txs ==> k in w.txs && w'.txs[k] == w.txs[k] && AtHome(w', k)
  }

  lemma CheckReplyStaysHome(w: World, m: PriorityId, verdict: CheckVerdict, k: Key)
    requires AtHome(w, k) && Enabled(w, CheckReply(m, verdict)) && Known(w.txs, w.checked)
    ensures StaysHome(w, OnCheck(w, m, verdict), k)
  {
  }

  lemma ExecuteReplyStaysHome(w: World, m: PriorityId, outcome: Outcome, k: Key)
    requires AtHome(w, k) && Enabled(w, ExecuteReply(m, outcome)) && Known(w.txs, w.checked)
    ensures StaysHome(w, OnExecute(w, m, outcome), k)
  {
    hide First, IsRetryable, InBundle;
  }

  lemma StartStaysHome(w: World, c: Candidate, k: Key)
    requires AtHome(w, k) && (c.Single? ==> IsMeta(w, c.id))
    ensures StaysHome(w, Start(w, c), k)
  {
    if c.Single? {
      assert KeySet([c.id.key]) == {c.id.key};
    } else if InBundle(w.bundles, k) {
      var b :| b in w.bundles && k in b.keys;
      assert b == c.bundle || b in w.bundles - {c.bundle};
    }
  }

  lemma DropBundleStaysHome(w: World, b: BundleId, k: Key)
    requires AtHome(w, k)
    ensures StaysHome(w, w.(txs := w.txs - KeySet(b.keys), bundles := w.bundles - {b}), k)
  {
    if InBundle(w.bundles, k) && k !in b.keys {
      var c :| c in w.bundles && k in c.keys;
      assert c in w.bundles - {b};
    }
  }

  lemma MoreStaysHome(w: World, w': World, k: Key)
    requires AtHome(w, k) && w.executing <= w'.executing && w'.bundles == w.bundles
    requires w.checked + w.deferred <= w'.checked + w'.deferred
    requires forall j | j in w.txs :: j in w'.txs && w'.txs[j] == w.txs[j]
    ensures StaysHome(w, w', k)
  {
    hide InBundle;
    assert Meta(w, k) in w.checked + w.deferred ==> Meta(w, k) in w'.checked + w'.deferred;
  }

  lemma DropStaysHome(w: World, m: PriorityId, k: Key)
    requires AtHome(w, k) && m.key in w.txs
    ensures StaysHome(w, Drop(w.(unchecked := w.unchecked - {m}), m.key), k)
  {
    hide InBundle;
  }

  lemma AdmitBundleStaysHome(w: World, b: BundleId, added: map<Key, Tx>, k: Key)
    requires AtHome(w, k) && added.Keys !! w.txs.Keys
    ensures StaysHome(w, w.(txs := w.txs + added, bundles := w.bundles + {b}), k)
  {
    if InBundle(w.bundles, k) {
      var c :| c in w.bundles && k in c.keys;
      assert c in w.bundles + {b};
    }
  }

  lemma QuietStaysHome(w: World, e: Event, k: Key)
    requires AtHome(w, k) && Enabled(w, e)
    requires !e.CheckReply? && !e.ExecuteReply? && !e.StartHead? && !e.DropBundle? && !e.AdmitBundle? && !e.EvictUnchecked?
    ensures StaysHome(w, Apply(w, e), k)
  {
    hide AtHome, StaysHome, Free, OnCheck, OnExecute, Start, First, Last, KeySet, Together, DistinctAccounts, NextRecheck, NextSweep;
    MoreStaysHome(w, Apply(w, e), k);
  }

  lemma EventStaysHome(w: World, e: Event, k: Key)
    requires AtHome(w, k) && Enabled(w, e) && Known(w.txs, w.checked)
    ensures StaysHome(w, Apply(w, e), k)
  {
    hide AtHome, StaysHome, Free, OnCheck, OnExecute, Start, InBundle, First, Last, KeySet, DistinctAccounts, DistinctKeys, BundleTxs, InFlightCus,
      NextRecheck, NextSweep;
    match e
    case CheckReply(m, verdict) => CheckReplyStaysHome(w, m, verdict, k);
    case ExecuteReply(m, outcome) => ExecuteReplyStaysHome(w, m, outcome, k);
    case StartHead => StartStaysHome(w, Head(w.checked, w.bundles).value, k);
    case DropBundle(b) => DropBundleStaysHome(w, b, k);
    case AdmitBundle(b, added) => AdmitBundleStaysHome(w, b, added, k);
    case EvictUnchecked => DropStaysHome(w, First(w.unchecked), k);
    case _ => QuietStaysHome(w, e, k);
  }

  lemma SettledStep(w: World, e: Event, k: Key)
    requires Sound(w, {}) && Enabled(w, e) && Settled(w, k) && k in Apply(w, e).txs
    ensures Settled(Apply(w, e), k)
  {
    assert Known(w.txs, w.checked);
    EventSound(w, e);
    hide Sound, Apply, Enabled, Known;
    SettledIsAtHome(w, k);
    EventStaysHome(w, e, k);
    SettledIsAtHome(Apply(w, e), k);
  }

  ghost predicate LiveThroughout(w: World, es: seq<Event>, k: Key)
    requires Possible(w, es)
    decreases |es|
  {
    k in w.txs && (es != [] ==> LiveThroughout(Apply(w, es[0]), es[1..], k))
  }

  lemma {:induction false} SettledForever(w: World, es: seq<Event>, k: Key)
    requires Inv(w) && Possible(w, es) && LiveThroughout(w, es, k) && Settled(w, k)
    ensures Settled(Run(w, es), k)
    decreases |es|
  {
    hide Sound, Apply, Enabled, Settled;
    if es != [] {
      EventKeepsInv(w, es[0]);
      assert LiveThroughout(Apply(w, es[0]), es[1..], k);
      SettledStep(w, es[0], k);
      SettledForever(Apply(w, es[0]), es[1..], k);
    }
  }

  lemma SettledReply(w: World, k: Key, verdict: CheckVerdict)
    requires Settled(w, k) && Enabled(w, CheckReply(Meta(w, k), verdict))
    ensures var w' := Apply(w, CheckReply(Meta(w, k), verdict));
      w'.checked <= w.checked && w'.executing == w.executing && w'.deferred == w.deferred
  {
  }

  /** However late the answer, a settled transaction's check can only take it out. */
  lemma LateCheckNeverInserts(w: World, es: seq<Event>, k: Key, verdict: CheckVerdict)
    requires Inv(w) && Possible(w, es) && LiveThroughout(w, es, k) && Settled(w, k)
    ensures var w' := Run(w, es);
      k in w'.txs && (Enabled(w', CheckReply(Meta(w', k), verdict)) ==>
        && Apply(w', CheckReply(Meta(w', k), verdict)).checked <= w'.checked
        && Apply(w', CheckReply(Meta(w', k), verdict)).executing == w'.executing
        && Apply(w', CheckReply(Meta(w', k), verdict)).deferred == w'.deferred)
  {
    SettledForever(w, es, k);
    var w' := Run(w, es);
    hide Sound, Possible, Run, LiveThroughout, Apply, Enabled;
    if Enabled(w', CheckReply(Meta(w', k), verdict)) {
      SettledReply(w', k, verdict);
    }
  }

  // ---- Mutual exclusion, compute units and capacities over runs ----

  lemma ConflictsTogether(w: World, j: Key, k: Key)
    requires Sound(w, {}) && j in w.executing && k in w.executing && j != k
    ensures j in w.txs && k in w.txs && w.cohort.Keys == w.executing
    ensures Conflict(w.txs[j].locks, w.txs[k].locks) ==>
      && w.cohort[j] == w.cohort[k] && {j, k} <= w.cohort[j]
      && w.txs[j].priority == BUNDLE_MARKER && w.txs[k].priority == BUNDLE_MARKER
  {
    assert LocksDistinct(w.txs) && MutualExclusion(w.txs, w.executing, w.cohort);
    hide Sound;
  }

  /** Conflicting executing transactions belong to one bundle or one tip pair. */
  lemma ConflictsShareABatch(cfg: Config, es: seq<Event>, j: Key, k: Key)
    requires Possible(Init(cfg), es)
    requires var w := Run(Init(cfg), es); j in w.executing && k in w.executing && j != k
    ensures var w := Run(Init(cfg), es);
      && j in w.txs && k in w.txs && w.cohort.Keys == w.executing
      && (Conflict(w.txs[j].locks, w.txs[k].locks) ==>
            && w.cohort[j] == w.cohort[k] && {j, k} <= w.cohort[j]
            && w.txs[j].priority == BUNDLE_MARKER && w.txs[k].priority == BUNDLE_MARKER)
  {
    InitInv(cfg);
    RunKeepsInv(Init(cfg), es);
    var w := Run(Init(cfg), es);
    assert Sound(w, {});
    hide Sound, Possible, Run;
    ConflictsTogether(w, j, k);
  }

  /** The counter of compute units never exceeds a block and is zero once every execute
      message is answered; loose transactions stay within the checked capacity even while
      bundles and tips count as pending. */
  lemma BoundsHold(cfg: Config, es: seq<Event>)
    requires Possible(Init(cfg), es)
    ensures var w := Run(Init(cfg), es);
      && InFlightCus(w) <= MAX_BLOCK_UNITS
      && (w.executing == {} ==> InFlightCus(w) == 0)
      && |w.checked| + |w.deferred| + |LooseExecuting(w)| <= cfg.checkedCapacity
      && |w.unchecked| <= cfg.uncheckedCapacity
      && |w.bundles| <= cfg.bundleCapacity
  {
    InitInv(cfg);
    RunKeepsInv(Init(cfg), es);
    RunKeepsConfig(Init(cfg), es);
    var w := Run(Init(cfg), es);
    assert OneExecuteEach(w.txs, w.executing, w.executes);
    hide Sound, Possible, Run;
    if w.executing == {} {
      assert w.executes == multiset{};
    }
  }

  lemma {:induction false} RunKeepsConfig(w: World, es: seq<Event>)
    requires Possible(w, es)
    ensures Run(w, es).cfg == w.cfg
    decreases |es|
  {
    hide Enabled;
    if es != [] {
      EventKeepsConfig(w, es[0]);
      hide Apply;
      RunKeepsConfig(Apply(w, es[0]), es[1..]);
    }
  }

  lemma EventKeepsConfig(w: World, e: Event)
    requires Enabled(w, e)
    ensures Apply(w, e).cfg == w.cfg
    ensures !e.Roll? ==> Apply(w, e).slot == w.slot && w.deferred <= Apply(w, e).deferred
  {
    hide Free, OnCheck, OnExecute, First, Last, DistinctAccounts, DistinctKeys, BundleTxs, InFlightCus, NextRecheck, NextSweep;
    match e
    case CheckReply(m, verdict) => OnCheckFrame(w, m, verdict);
    case ExecuteReply(m, outcome) => OnExecuteFrame(w, m, outcome);
    case _ =>
  }

  // ---- Deferral ----

  /** A deferred transaction is not executed again before the slot changes. */
  lemma {:induction false} DeferredUntilRoll(w: World, es: seq<Event>, m: PriorityId)
    requires Inv(w) && Possible(w, es) && m in w.deferred
    requires forall e | e in es :: !e.Roll?
    ensures var w' := Run(w, es);
      w'.slot == w.slot && m in w'.deferred && m !in w'.checked && m.key !in w'.executing && m !in w'.executes
    decreases |es|
  {
    hide Apply, Enabled;
    if es == [] {
      assert NotExecuting(w.deferred, w.executing) && OneExecuteEach(w.txs, w.executing, w.executes);
    } else {
      hide Sound, WithinCapacity;
      EventKeepsInv(w, es[0]);
      EventKeepsConfig(w, es[0]);
      DeferredUntilRoll(Apply(w, es[0]), es[1..], m);
    }
  }

  /** The roll puts every deferred transaction back among the checked ones, once. */
  lemma RollReturnsDeferred(w: World, s: Slot)
    requires Sound(w, {}) && Enabled(w, Roll(s))
    ensures var w' := Apply(w, Roll(s));
      && w'.checked == w.checked + w.deferred && w'.deferred == {} && w.checked !! w.deferred
      && |w'.checked| == |w.checked| + |w.deferred|
      && w'.cursor.Some? == (w.cursor.Some? || w'.checked != {})
  {
    hide Free;
  }

  /** Whatever happens before the slot changes, and however many transactions come and go:
      every transaction deferred at the start is checked once the slot has changed. */
  lemma DeferredComeBack(w: World, es: seq<Event>, s: Slot)
    requires Inv(w) && Possible(w, es + [Roll(s)]) && forall e | e in es :: !e.Roll?
    ensures var w' := Run(w, es + [Roll(s)]);
      && Possible(w, es) && w.deferred <= Run(w, es).deferred
      && Run(w, es).deferred <= w'.checked && w'.deferred == {}
      && w.deferred <= w'.checked
      && forall m | m in w.deferred :: m !in Run(w, es).checked && m.key !in w'.executing
  {
    hide Inv, Apply, Enabled;
    SplitRun(w, es, [Roll(s)]);
    RunKeepsInv(w, es);
    var w1 := Run(w, es);
    assert Possible(w1, [Roll(s)]) && Enabled(w1, Roll(s));
    OneStep(w1, Roll(s));
    RollIsReturn(w1, s);
    forall m | m in w.deferred ensures m in w1.deferred && m !in w1.checked && m.key !in w1.executing {
      DeferredUntilRoll(w, es, m);
    }
  }

  lemma RollIsReturn(w: World, s: Slot)
    requires Enabled(w, Roll(s))
    ensures var w' := Apply(w, Roll(s)); w'.checked == w.checked + w.deferred && w'.deferred == {} && w'.executing == w.executing
  {
    hide Free;
  }

  // ---- When the check response's eviction finds nothing to evict ----

  /** Handling a deliverable check response succeeds unless it is a first check that
      passed, with nothing checked and the executing and deferred transactions alone
      filling the checked capacity. */
  lemma CheckReplySucceedsIff(w: World, m: PriorityId, verdict: CheckVerdict)
    requires Inv(w) && m in w.checks
    ensures Enabled(w, CheckReply(m, verdict)) <==>
      (verdict == CheckOk && Awaiting(w, m) && w.checked == {} ==>
         |w.executing| + |w.deferred| < w.cfg.checkedCapacity)
  {
    assert KnownChecks(w.txs, w.checks) && Known(w.txs, w.checked);
    hide Sound, Free;
  }

  /** A loose transaction as the code receives it: it writes an account, costs something
      and fits a block. */
  ghost predicate Ordinary(tx: Tx) {
    DistinctAccounts(tx.locks) && (exists a :: Writes(tx.locks, a)) && 0 < tx.cost <= MAX_BLOCK_UNITS && tx.priority < BUNDLE_MARKER
  }

  lemma OrdinaryFits(tx: Tx)
    requires Ordinary(tx)
    ensures DistinctAccounts(tx.locks) && tx.cost <= MAX_BLOCK_UNITS && tx.priority < BUNDLE_MARKER
  {
  }

  function FirstKeys(n: nat): (keys: set<Key>)
    ensures forall k: Key :: k in keys <==> k < n
  {
    if n == 0 then {} else FirstKeys(n - 1) + {n - 1}
  }

  /** The transaction under the first `n` keys. */
  function FirstMetas(tx: Tx, n: nat): set<PriorityId> {
    set k | k in FirstKeys(n) :: MetaOf(k, tx)
  }

  function FirstTxs(tx: Tx, n: nat): map<Key, Tx> {
    map k | k in FirstKeys(n) :: tx
  }

  lemma {:induction false} CountMetas(tx: Tx, n: nat)
    ensures |FirstMetas(tx, n)| == n
  {
    if n > 0 {
      CountMetas(tx, n - 1);
      NextMeta(tx, n - 1);
    }
  }

  lemma NextMeta(tx: Tx, n: nat)
    ensures MetaOf(n, tx) !in FirstMetas(tx, n) && FirstMetas(tx, n + 1) == FirstMetas(tx, n) + {MetaOf(n, tx)}
    ensures n !in FirstTxs(tx, n) && FirstTxs(tx, n + 1) == FirstTxs(tx, n)[n := tx]
  {
    forall m ensures m in FirstMetas(tx, n + 1) <==> m in FirstMetas(tx, n) + {MetaOf(n, tx)} {
      if m in FirstMetas(tx, n) {
        var k :| k in FirstKeys(n) && m == MetaOf(k, tx);
        assert k in FirstKeys(n + 1);
      }
    }
  }

  /** The first `n` transactions are deferred, and nothing else is going on. */
  ghost function Deferring(capacity: nat, tx: Tx, n: nat): World {
    Init(Config(1, capacity, 0)).(txs := FirstTxs(tx, n), deferred := FirstMetas(tx, n))
  }

  /** Transaction `n` is off for its first check. */
  ghost function Checking(capacity: nat, tx: Tx, n: nat): World {
    Deferring(capacity, tx, n).(txs := FirstTxs(tx, n + 1), checks := multiset{MetaOf(n, tx)})
  }

  /** One more transaction comes in and goes off for its first check. */
  lemma SendOneMore(capacity: nat, tx: Tx, n: nat)
    requires Ordinary(tx)
    ensures var w := Deferring(capacity, tx, n); var e := Admit(n, tx);
      && Enabled(w, e) && Enabled(Apply(w, e), SendCheck)
      && Apply(Apply(w, e), SendCheck) == Checking(capacity, tx, n)
  {
    hide FirstMetas, FirstTxs, DistinctAccounts, Writes;
    NextMeta(tx, n);
    var w1 := Apply(Deferring(capacity, tx, n), Admit(n, tx));
    assert w1.unchecked == {MetaOf(n, tx)};
  }

  /** It passes its check and is alone in the queue. */
  lemma PassOneMore(capacity: nat, tx: Tx, n: nat)
    requires n < capacity
    ensures var m := MetaOf(n, tx); var w := Checking(capacity, tx, n);
      && Enabled(w, CheckReply(m, CheckOk))
      && Apply(w, CheckReply(m, CheckOk)) == w.(checks := multiset{}, checked := {m})
  {
    hide First, FirstMetas, FirstTxs;
    NextMeta(tx, n);
    CountMetas(tx, n);
  }

  lemma StartOnlyOne(w: World, m: PriorityId)
    requires w.checked == {m} && w.bundles == {} && w.executing == {} && w.executes == multiset{} && w.cohort == map[]
    requires m.cost <= MAX_BLOCK_UNITS && m.key in w.txs
    ensures Enabled(w, StartHead)
    ensures Apply(w, StartHead) ==
      w.(checked := {}, executing := {m.key}, executes := multiset{m}, cohort := map[m.key := {m.key}])
  {
    assert Last({m}) == m;
    assert KeySet([m.key]) == {m.key};
    assert multiset([m]) == multiset{m};
    assert Together({m.key}) == map[m.key := {m.key}];
  }

  /** It comes back in the slot it was tried in. */
  lemma DeferOnlyOne(w: World, m: PriorityId)
    requires IsMeta(w, m) && m.priority < BUNDLE_MARKER
    requires w.checked == {} && w.executing == {m.key} && w.executes == multiset{m} && w.cohort == map[m.key := {m.key}]
    ensures var e := ExecuteReply(m, Executed(BankNotAvailable, w.slot));
      && Enabled(w, e)
      && Apply(w, e) == w.(executing := {}, executes := multiset{}, cohort := map[], deferred := w.deferred + {m})
  {
    hide First;
    assert map[m.key := {m.key}] - {m.key} == map[];
  }

  lemma DeferOneMore(capacity: nat, tx: Tx, n: nat)
    requires n < capacity && Ordinary(tx)
    ensures var m := MetaOf(n, tx);
      var e1, e3, e5 := Admit(n, tx), CheckReply(m, CheckOk), ExecuteReply(m, Executed(BankNotAvailable, 0));
      && Possible(Deferring(capacity, tx, n), [e1, SendCheck, e3, StartHead, e5])
      && Run(Deferring(capacity, tx, n), [e1, SendCheck, e3, StartHead, e5]) == Deferring(capacity, tx, n + 1)
  {
    hide Apply, Enabled, Possible, Run, Ordinary, FirstMetas, FirstTxs;
    var m := MetaOf(n, tx);
    var w := Deferring(capacity, tx, n);
    var w2 := Checking(capacity, tx, n);
    var w3 := w2.(checks := multiset{}, checked := {m});
    var w4 := w3.(checked := {}, executing := {n}, executes := multiset{m}, cohort := map[n := {n}]);
    NextMeta(tx, n);
    OrdinaryFits(tx);
    SendOneMore(capacity, tx, n);
    PassOneMore(capacity, tx, n);
    StartOnlyOne(w3, m);
    DeferOnlyOne(w4, m);
    FiveSteps(w, Admit(n, tx), SendCheck, CheckReply(m, CheckOk), StartHead, ExecuteReply(m, Executed(BankNotAvailable, 0)));
  }

  lemma FiveSteps(w: World, e1: Event, e2: Event, e3: Event, e4: Event, e5: Event)
    requires Enabled(w, e1)
    requires var w1 := Apply(w, e1); Enabled(w1, e2) && Enabled(Apply(w1, e2), e3)
    requires var w3 := Apply(Apply(Apply(w, e1), e2), e3); Enabled(w3, e4) && Enabled(Apply(w3, e4), e5)
    ensures Possible(w, [e1, e2, e3, e4, e5])
    ensures Run(w, [e1, e2, e3, e4, e5]) == Apply(Apply(Apply(Apply(Apply(w, e1), e2), e3), e4), e5)
  {
    hide Apply, Enabled, Possible, Run;
    OneStep(w, e1);
    RunSnoc(w, [e1], e2);
    assert [e1] + [e2] == [e1, e2];
    RunSnoc(w, [e1, e2], e3);
    assert [e1, e2] + [e3] == [e1, e2, e3];
    RunSnoc(w, [e1, e2, e3], e4);
    assert [e1, e2, e3] + [e4] == [e1, e2, e3, e4];
    RunSnoc(w, [e1, e2, e3, e4], e5);
    assert [e1, e2, e3, e4] + [e5] == [e1, e2, e3, e4, e5];
  }

  /** Transactions defer one by one until they fill the capacity. */
  lemma {:induction false} DeferAll(capacity: nat, tx: Tx, n: nat) returns (es: seq<Event>)
    requires n <= capacity && Ordinary(tx)
    ensures Possible(Init(Config(1, capacity, 0)), es)
    ensures Run(Init(Config(1, capacity, 0)), es) == Deferring(capacity, tx, n)
  {
    hide Ordinary;
    var w := Init(Config(1, capacity, 0));
    if n == 0 {
      es := [];
      assert Deferring(capacity, tx, 0) == w;
    } else {
      es := DeferAll(capacity, tx, n - 1);
      DeferOneMore(capacity, tx, n - 1);
      var m := MetaOf(n - 1, tx);
      var more := [Admit(n - 1, tx), SendCheck, CheckReply(m, CheckOk), StartHead, ExecuteReply(m, Executed(BankNotAvailable, 0))];
      hide Apply, Enabled, Possible, Run, Deferring;
      RunAppend(w, es, more);
      es := es + more;
    }
  }

  /** For every capacity and any transaction there is a run into the failing case, with
      single transactions only: as many as the checked side may hold are deferred within one
      slot, and then one more passes its first check. */
  lemma EvictionCanFindNothing(capacity: nat, tx: Tx) returns (es: seq<Event>)
    requires Ordinary(tx)
    ensures var w := Init(Config(1, capacity, 0)); var m := MetaOf(capacity, tx);
      && Possible(w, es)
      && m in Run(w, es).checks
      && !Enabled(Run(w, es), CheckReply(m, CheckOk))
  {
    hide Ordinary, Apply, Enabled, Possible, Run, Deferring, Checking;
    es := DeferAll(capacity, tx, capacity);
    SendOneMore(capacity, tx, capacity);
    FullWhenChecking(capacity, tx);
    var w := Init(Config(1, capacity, 0));
    RunSnoc(w, es, Admit(capacity, tx));
    RunSnoc(w, es + [Admit(capacity, tx)], SendCheck);
    es := es + [Admit(capacity, tx)] + [SendCheck];
  }

  lemma FullWhenChecking(capacity: nat, tx: Tx)
    ensures var w := Checking(capacity, tx, capacity); var m := MetaOf(capacity, tx);
      m in w.checks && !Enabled(w, CheckReply(m, CheckOk))
  {
    hide FirstMetas, FirstTxs;
    NextMeta(tx, capacity);
    CountMetas(tx, capacity);
    assert PendingLen(Checking(capacity, tx, capacity)) == capacity;
  }
}
