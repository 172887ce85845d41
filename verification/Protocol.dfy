/** The batch scheduler as a state machine over its containers and over the messages
    its asynchronous workers still have to answer. The lock table and the compute-unit
    counter are not part of this state: the scheduler class keeps them, and they are
    proved to be functions of `executing` and `executes`. */
module Protocol {
  import opened Orders
  import opened Locks

  type Slot = nat

  /** Priority that marks a message of a bundle or of the tip pair (`u64::MAX`). */
  const BUNDLE_MARKER: nat := 0xFFFF_FFFF_FFFF_FFFF

  /** Compute units in a block. */
  const MAX_BLOCK_UNITS: nat := 60_000_000

  datatype Config = Config(uncheckedCapacity: nat, checkedCapacity: nat, bundleCapacity: nat)

  /** `txs` are the keys the bridge holds; `checks` and `executes` are the messages sent
      and not answered yet; `cohort` gives, for an executing key, the keys it was
      scheduled with. */
  datatype World = World(
    cfg: Config,
    txs: map<Key, Tx>,
    unchecked: set<PriorityId>,
    checked: set<PriorityId>,
    executing: set<Key>,
    deferred: set<PriorityId>,
    bundles: set<BundleId>,
    cursor: Option<PriorityId>,
    slot: Slot,
    checks: multiset<PriorityId>,
    executes: multiset<PriorityId>,
    cohort: map<Key, set<Key>>)

  datatype CheckVerdict = CheckFailed | CheckFiltered | CheckOk

  datatype Reason =
    | Included
    | AccountInUse
    | BankNotAvailable
    | WouldExceedMaxBlockCostLimit
    | WouldExceedMaxAccountCostLimit
    | WouldExceedAccountDataBlockLimit
    | WouldExceedMaxVoteCostLimit
    | WouldExceedAccountDataTotalLimit
    | OtherReason(code: nat)

  datatype Outcome = Unprocessed | Executed(reason: Reason, slot: Slot)

  predicate IsRetryable(reason: Reason) {
    !reason.Included? && !reason.OtherReason?
  }

  /** What one execute batch carries: a single transaction, or a whole bundle. */
  datatype Candidate = Single(id: PriorityId) | Pack(bundle: BundleId) {
    function Keys(): seq<Key> {
      match this
      case Single(m) => [m.key]
      case Pack(b) => b.keys
    }

    function Cost(): nat {
      match this
      case Single(m) => m.cost
      case Pack(b) => b.cost
    }

    function Priority(): nat {
      match this
      case Single(m) => m.priority
      case Pack(b) => b.priority
    }

    /** The metas in the message; a bundle's first meta carries the bundle's cost. */
    function Batch(): seq<PriorityId> {
      match this
      case Single(m) => [m]
      case Pack(b) => BundleBatch(b)
    }
  }

  function BundleBatch(b: BundleId): (batch: seq<PriorityId>)
    ensures |batch| == |b.keys|
  {
    seq(|b.keys|, i requires 0 <= i < |b.keys| => BundleMeta(b, i))
  }

  function BundleMeta(b: BundleId, i: nat): PriorityId
    requires i < |b.keys|
  {
    PriorityId(BUNDLE_MARKER, if i == 0 then b.cost else 0, b.keys[i])
  }

  datatype Event =
    | Admit(key: Key, tx: Tx)
    | EvictUnchecked
    | AdmitBundle(bundle: BundleId, added: map<Key, Tx>)
    | DropBundle(bundle: BundleId)
    | SendCheck
    | SendRecheck
    | CheckReply(meta: PriorityId, verdict: CheckVerdict)
    | ExecuteReply(meta: PriorityId, outcome: Outcome)
    | StartHead
    | StartTips(key1: Key, tx1: Tx, key2: Key, tx2: Tx)
    | Roll(newSlot: Slot)
    | StartSweep

  // ---- Views of a state ----

  function KeySet(ks: seq<Key>): set<Key> {
    set k | k in ks
  }

  /** Keys scheduled in one go have each other as company. */
  function Together(ks: set<Key>): map<Key, set<Key>> {
    map k | k in ks :: ks
  }

  function MetaOf(k: Key, tx: Tx): PriorityId {
    PriorityId(tx.priority, tx.cost, k)
  }

  function Meta(w: World, k: Key): PriorityId
    requires k in w.txs
  {
    MetaOf(k, w.txs[k])
  }

  /** `m` is the id of a transaction the bridge holds. */
  predicate IsMeta(w: World, m: PriorityId) {
    m.key in w.txs && m == Meta(w, m.key)
  }

  ghost predicate Free(w: World, locks: seq<Lock>) {
    forall h | h in w.executing && h in w.txs :: !Conflict(locks, w.txs[h].locks)
  }

  ghost function Head(checked: set<PriorityId>, bundles: set<BundleId>): Option<Candidate> {
    if checked == {} && bundles == {} then None
    else if bundles == {} then Some(Single(Last(checked)))
    else if checked == {} then Some(Pack(LastBundle(bundles)))
    else if Last(checked).priority >= LastBundle(bundles).priority then Some(Single(Last(checked)))
    else Some(Pack(LastBundle(bundles)))
  }

  function PendingLen(w: World): nat {
    |w.checked| + |w.executing| + |w.deferred|
  }

  /** Keys executing as single transactions. */
  function LooseExecuting(w: World): set<Key> {
    set k | k in w.executing && k in w.txs && w.txs[k].priority < BUNDLE_MARKER
  }

  function Load(w: World): nat {
    |w.checked| + |w.deferred| + |LooseExecuting(w)|
  }

  // ---- Compute units in flight ----

  ghost function SumCost(ms: multiset<PriorityId>): nat
    decreases |ms|
  {
    if ms == multiset{} then 0
    else
      var m :| m in ms;
      m.cost + SumCost(ms - multiset{m})
  }

  lemma SumCostPick(ms: multiset<PriorityId>) returns (x: PriorityId)
    requires ms != multiset{}
    ensures x in ms && SumCost(ms) == x.cost + SumCost(ms - multiset{x})
  {
    x :| x in ms && SumCost(ms) == x.cost + SumCost(ms - multiset{x});
  }

  lemma {:induction false} SumCostAdd(ms: multiset<PriorityId>, m: PriorityId)
    ensures SumCost(ms + multiset{m}) == SumCost(ms) + m.cost
    decreases |ms|
  {
    hide SumCost;
    var all := ms + multiset{m};
    var x := SumCostPick(all);
    if x == m {
      assert all - multiset{x} == ms;
    } else {
      SumCostAdd(ms - multiset{x}, m);
      assert all - multiset{x} == ms - multiset{x} + multiset{m};
      SumCostAdd(ms - multiset{x}, x);
      assert ms - multiset{x} + multiset{x} == ms;
    }
  }

  lemma SumCostRemove(ms: multiset<PriorityId>, m: PriorityId)
    requires m in ms
    ensures SumCost(ms) == SumCost(ms - multiset{m}) + m.cost
  {
    SumCostAdd(ms - multiset{m}, m);
    assert ms - multiset{m} + multiset{m} == ms;
  }

  ghost function InFlightCus(w: World): nat {
    SumCost(w.executes)
  }

  // ---- Transitions ----

  /** The bridge forgets a key and discards the check responses still due for it. */
  function Drop(w: World, k: Key): World
    requires k in w.txs
  {
    w.(txs := w.txs - {k}, checks := w.checks[Meta(w, k) := 0])
  }

  ghost function EvictChecked(w: World): World
    requires w.checked != {}
    requires First(w.checked).key in w.txs
  {
    var m := First(w.checked);
    Drop(w.(checked := w.checked - {m}), m.key)
  }

  /** Makes room for one more checked transaction. Bundles and tips count as pending too. */
  ghost function EvictIfFull(w: World): World
    requires PendingLen(w) >= w.cfg.checkedCapacity ==> w.checked != {} && First(w.checked).key in w.txs
  {
    if PendingLen(w) >= w.cfg.checkedCapacity then EvictChecked(w) else w
  }

  /** A check response inserts its transaction only when nothing knows it yet. */
  predicate IsFirstCheck(w: World, m: PriorityId) {
    m.key !in w.executing && m !in w.deferred && m !in w.checked
  }

  predicate NeedsEviction(w: World, m: PriorityId, verdict: CheckVerdict) {
    verdict.CheckOk? && IsFirstCheck(w, m) && PendingLen(w) >= w.cfg.checkedCapacity
  }

  ghost function OnCheck(w: World, m: PriorityId, verdict: CheckVerdict): World
    requires IsMeta(w, m)
    requires NeedsEviction(w, m, verdict) ==> w.checked != {} && First(w.checked).key in w.txs
  {
    var w1 := w.(checks := w.checks - multiset{m});
    if m.key in w.executing || m in w.deferred then w1
    else if verdict.CheckFailed? then Drop(w1.(checked := w.checked - {m}), m.key)
    else if m in w.checked then w1
    else if verdict.CheckFiltered? then Drop(w1, m.key)
    else
      var w2 := EvictIfFull(w1);
      w2.(checked := w2.checked + {m})
  }

  /** The lowest of the transactions is gone, and the bridge has dropped it. */
  ghost predicate LosesLowest(before: set<PriorityId>, txs: map<Key, Tx>, after: set<PriorityId>, txs': map<Key, Tx>) {
    exists low ::
      low in before && (forall x | x in before :: AtMost(low, x)) && after == before - {low} && txs' == txs - {low.key}
  }

  lemma LowestIsFirst(checked: set<PriorityId>, txs: map<Key, Tx>)
    requires checked != {}
    ensures LosesLowest(checked, txs, checked - {First(checked)}, txs - {First(checked).key})
  {
    assert IsFirst(checked, First(checked));
  }

  lemma EvictionTakesLowest(w: World)
    requires w.checked != {} && First(w.checked).key in w.txs
    ensures LosesLowest(w.checked, w.txs, EvictChecked(w).checked, EvictChecked(w).txs)
    ensures var w' := EvictChecked(w); w'.executing == w.executing && w'.deferred == w.deferred && w'.unchecked == w.unchecked
  {
    assert IsFirst(w.checked, First(w.checked));
  }

  /** The execute response has come in: its message, its executing mark and its locks go. */
  function Finished(w: World, m: PriorityId): World {
    w.(executes := w.executes - multiset{m}, executing := w.executing - {m.key}, cohort := w.cohort - {m.key})
  }

  predicate DefersReply(w: World, outcome: Outcome)
    requires outcome.Executed?
  {
    outcome.slot == w.slot && outcome.reason != AccountInUse
  }

  ghost function OnExecute(w: World, m: PriorityId, outcome: Outcome): World
    requires IsMeta(w, m)
    requires forall x | x in w.checked :: x.key in w.txs
  {
    var w1 := Finished(w, m);
    if m.priority == BUNDLE_MARKER then Drop(w1, m.key)
    else if outcome.Unprocessed? then w1.(checked := w.checked + {m})
    else if !IsRetryable(outcome.reason) then Drop(w1, m.key)
    else
      var w2 := if DefersReply(w, outcome)
                then w1.(deferred := w.deferred + {m})
                else w1.(checked := w.checked + {m});
      if PendingLen(w2) > w.cfg.checkedCapacity && w2.checked != {} then EvictChecked(w2) else w2
  }

  ghost function Start(w: World, c: Candidate): World {
    w.(checked := if c.Single? then w.checked - {c.id} else w.checked,
       bundles := if c.Pack? then w.bundles - {c.bundle} else w.bundles,
       executing := w.executing + KeySet(c.Keys()),
       executes := w.executes + multiset(c.Batch()),
       cohort := w.cohort + Together(KeySet(c.Keys())))
  }

  /** The tip pair arrives and executes at once, in two messages. */
  ghost function TipsStarted(w: World, k1: Key, tx1: Tx, k2: Key, tx2: Tx): World {
    w.(txs := w.txs + map[k1 := tx1, k2 := tx2],
       executing := w.executing + {k1, k2},
       executes := w.executes + multiset{MetaOf(k1, tx1), MetaOf(k2, tx2)},
       cohort := w.cohort + Together({k1, k2}))
  }

  ghost function NextSweep(w: World): Option<PriorityId> {
    if w.cursor.Some? then w.cursor else if w.checked == {} then None else Some(Last(w.checked))
  }

  /** What a sweep may start at: the greatest checked transaction, if there is any. */
  ghost predicate SweepStart(checked: set<PriorityId>, cursor: Option<PriorityId>) {
    match cursor
    case None => checked == {}
    case Some(c) => c in checked && forall x | x in checked :: AtMost(x, c)
  }

  /** The checked transactions the cursor has not passed. */
  ghost function AtOrBelow(s: set<PriorityId>, c: PriorityId): set<PriorityId> {
    set x | x in s && AtMost(x, c)
  }

  /** The transaction the cursor rechecks next, if any is left. */
  ghost function NextRecheck(w: World): Option<PriorityId> {
    if w.cursor.None? || AtOrBelow(w.checked, w.cursor.value) == {} then None
    else Some(Last(AtOrBelow(w.checked, w.cursor.value)))
  }

  predicate BundleTxs(b: BundleId, txs: map<Key, Tx>) {
    forall i | 0 <= i < |b.keys| :: b.keys[i] in txs && MetaOf(b.keys[i], txs[b.keys[i]]) == BundleMeta(b, i)
  }

  predicate DistinctKeys(ks: seq<Key>) {
    forall i, j | 0 <= i < j < |ks| :: ks[i] != ks[j]
  }

  ghost predicate Enabled(w: World, e: Event) {
    match e
    case Admit(k, tx) =>
      k !in w.txs && tx.priority < BUNDLE_MARKER && DistinctAccounts(tx.locks) && |w.unchecked| < w.cfg.uncheckedCapacity
    case EvictUnchecked => w.unchecked != {} && First(w.unchecked).key in w.txs
    case AdmitBundle(b, added) =>
      && b.keys != [] && DistinctKeys(b.keys) && added.Keys == KeySet(b.keys) && added.Keys !! w.txs.Keys
      && BundleTxs(b, added) && (forall k | k in added :: DistinctAccounts(added[k].locks))
      && |w.bundles| < w.cfg.bundleCapacity
    case DropBundle(b) => b in w.bundles
    case SendCheck => w.unchecked != {}
    case SendRecheck => w.unchecked == {} && w.cursor.Some?
    case CheckReply(m, verdict) =>
      m in w.checks && IsMeta(w, m)
      && (NeedsEviction(w, m, verdict) ==> w.checked != {} && First(w.checked).key in w.txs)
    case ExecuteReply(m, _) =>
      m in w.executes && IsMeta(w, m) && forall x | x in w.checked :: x.key in w.txs
    case StartHead =>
      && Head(w.checked, w.bundles).Some?
      && var c := Head(w.checked, w.bundles).value;
      && InFlightCus(w) + c.Cost() <= MAX_BLOCK_UNITS
      && forall k | k in c.Keys() :: k in w.txs && Free(w, w.txs[k].locks)
    case StartTips(k1, tx1, k2, tx2) =>
      && k1 !in w.txs && k2 !in w.txs && k1 != k2
      && tx1.priority == BUNDLE_MARKER && tx2.priority == BUNDLE_MARKER && tx1.cost == 0 && tx2.cost == 0
      && DistinctAccounts(tx1.locks) && DistinctAccounts(tx2.locks)
      && Free(w, tx1.locks) && Free(w, tx2.locks)
    case Roll(s) => s != w.slot
    case StartSweep => true
  }

  ghost function Apply(w: World, e: Event): World
    requires Enabled(w, e)
  {
    match e
    case Admit(k, tx) => w.(txs := w.txs[k := tx], unchecked := w.unchecked + {MetaOf(k, tx)})
    case EvictUnchecked =>
      var m := First(w.unchecked);
      Drop(w.(unchecked := w.unchecked - {m}), m.key)
    case AdmitBundle(b, added) => w.(txs := w.txs + added, bundles := w.bundles + {b})
    case DropBundle(b) => w.(txs := w.txs - KeySet(b.keys), bundles := w.bundles - {b})
    case SendCheck =>
      var m := Last(w.unchecked);
      w.(unchecked := w.unchecked - {m}, checks := w.checks + multiset{m})
    case SendRecheck =>
      if NextRecheck(w).None? then w.(cursor := None)
      else
        var m := NextRecheck(w).value;
        w.(cursor := LastBelow(w.checked, m), checks := w.checks + multiset{m})
    case CheckReply(m, verdict) => OnCheck(w, m, verdict)
    case ExecuteReply(m, outcome) => OnExecute(w, m, outcome)
    case StartHead => Start(w, Head(w.checked, w.bundles).value)
    case StartTips(k1, tx1, k2, tx2) =>
      TipsStarted(w, k1, tx1, k2, tx2)
    case Roll(s) =>
      var w1 := w.(slot := s, checked := w.checked + w.deferred, deferred := {});
      w1.(cursor := NextSweep(w1))
    case StartSweep => w.(cursor := NextSweep(w))
  }

  lemma OnCheckFrame(w: World, m: PriorityId, verdict: CheckVerdict)
    requires Enabled(w, CheckReply(m, verdict))
    ensures var w' := OnCheck(w, m, verdict);
      w'.cfg == w.cfg && w'.slot == w.slot && w'.deferred == w.deferred && w'.txs.Keys <= w.txs.Keys
  {
    hide First;
  }

  lemma OnExecuteFrame(w: World, m: PriorityId, outcome: Outcome)
    requires Enabled(w, ExecuteReply(m, outcome))
    ensures var w' := OnExecute(w, m, outcome);
      w'.cfg == w.cfg && w'.slot == w.slot && w.deferred <= w'.deferred && w'.txs.Keys <= w.txs.Keys
  {
    hide First;
  }

  // ---- Runs ----

  ghost predicate Possible(w: World, es: seq<Event>)
    decreases |es|
  {
    es == [] || (Enabled(w, es[0]) && Possible(Apply(w, es[0]), es[1..]))
  }

  ghost function Run(w: World, es: seq<Event>): World
    requires Possible(w, es)
    decreases |es|
  {
    if es == [] then w else Run(Apply(w, es[0]), es[1..])
  }

  function Init(cfg: Config): World {
    World(cfg, map[], {}, {}, {}, {}, {}, None, 0, multiset{}, multiset{}, map[])
  }

  lemma {:induction false} RunAppend(w: World, es: seq<Event>, fs: seq<Event>)
    requires Possible(w, es) && Possible(Run(w, es), fs)
    ensures Possible(w, es + fs) && Run(w, es + fs) == Run(Run(w, es), fs)
    decreases |es|
  {
    hide Apply, Enabled;
    if es == [] {
      assert es + fs == fs;
    } else {
      RunAppend(Apply(w, es[0]), es[1..], fs);
      assert (es + fs)[1..] == es[1..] + fs;
    }
  }

  /** The split of a run at any point. */
  lemma {:induction false} SplitRun(w: World, es: seq<Event>, fs: seq<Event>)
    requires Possible(w, es + fs)
    ensures Possible(w, es) && Possible(Run(w, es), fs) && Run(w, es + fs) == Run(Run(w, es), fs)
    decreases |es|
  {
    hide Apply, Enabled;
    if es == [] {
      assert es + fs == fs;
    } else {
      assert (es + fs)[1..] == es[1..] + fs;
      SplitRun(Apply(w, es[0]), es[1..], fs);
    }
  }

  lemma AppendIff(w: World, es: seq<Event>, fs: seq<Event>)
    requires Possible(w, es)
    ensures Possible(w, es + fs) <==> Possible(Run(w, es), fs)
    ensures Possible(w, es + fs) ==> Run(w, es + fs) == Run(Run(w, es), fs)
  {
    hide Possible, Run;
    if Possible(w, es + fs) {
      SplitRun(w, es, fs);
    }
    if Possible(Run(w, es), fs) {
      RunAppend(w, es, fs);
    }
  }

  lemma RunSnoc(w: World, es: seq<Event>, e: Event)
    requires Possible(w, es) && Enabled(Run(w, es), e)
    ensures Possible(w, es + [e]) && Run(w, es + [e]) == Apply(Run(w, es), e)
  {
    hide Apply, Enabled;
    var w1 := Run(w, es);
    assert [e][1..] == [];
    assert Possible(Apply(w1, e), []) && Run(Apply(w1, e), []) == Apply(w1, e);
    assert Possible(w1, [e]) && Run(w1, [e]) == Apply(w1, e);
    RunAppend(w, es, [e]);
  }

  lemma OneStep(w: World, e: Event)
    requires Enabled(w, e)
    ensures Possible(w, [e]) && Run(w, [e]) == Apply(w, e)
  {
    hide Apply, Enabled;
    RunSnoc(w, [], e);
    assert [] + [e] == [e];
  }
}
