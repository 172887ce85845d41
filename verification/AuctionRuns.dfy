/** The auction scheduler as a state machine: what it shares with the batch scheduler, its
    own starts and its own tips. What holds in every reachable state. */
module AuctionRuns {
  import opened Orders
  import opened Locks
  import opened Protocol
  import opened Invariant
  import opened Steps
  import opened Capacity
  import opened Theorems
  import opened Ingest
  import opened Tips
  import opened LockManagers
  import opened Responses
  import opened Auction
  import opened AuctionRecheck

  /** The state, and which executing keys hold locks and which were declined them. */
  datatype House = House(w: World, holders: set<Key>, declined: set<Key>)

  /** What the two schedulers do alike, a worker's turn with a budget, and the tip pair. */
  datatype Move = Shared(event: Event) | Serve(budget: nat) | SendTips(tips: TipPair)

  ghost function DeskOf(h: House, budget: nat): Desk {
    Desk(h.w.checked, h.w.bundles, h.holders, h.w.executing, h.w.executes, budget)
  }

  predicate IsShared(e: Event) {
    !e.StartHead? && !e.StartTips?
  }

  ghost predicate MayMove(h: House, m: Move) {
    match m
    case Shared(e) =>
      // With nothing unchecked the recheck loop must end, as `LoopEndsIff` says.
      IsShared(e) && Enabled(h.w, e) && (e.SendRecheck? ==> MayRecheck(h.w.checked, h.w.executing, h.w.cursor.value))
    case Serve(budget) => InFlightCus(h.w) + budget <= MAX_BLOCK_UNITS && Pick(DeskOf(h, budget), h.w.txs).Some?
    case SendTips(t) => t.Fresh(h.w.txs) && FreeOf(h.holders, h.w.txs + map[t.key1 := t.Tx1()], t.key1)
  }

  /** The second tip gets its locks. */
  ghost predicate Granted(h: House, t: TipPair) {
    FreeOf(h.holders, h.w.txs + map[t.key1 := t.Tx1(), t.key2 := t.Tx2()], t.key2) && !Conflict(t.locks1, t.locks2)
  }

  ghost function Released(keys: set<Key>, e: Event): set<Key> {
    if e.ExecuteReply? then keys - {e.meta.key} else keys
  }

  ghost function Moved(h: House, m: Move): House
    requires MayMove(h, m)
  {
    match m
    case Shared(e) => House(Apply(h.w, e), Released(h.holders, e), Released(h.declined, e))
    case Serve(budget) =>
      var c := Pick(DeskOf(h, budget), h.w.txs).value;
      House(Start(h.w, c), h.holders + KeySet(c.Keys()), h.declined)
    case SendTips(t) =>
      House(TipsStarted(h.w, t.key1, t.Tx1(), t.key2, t.Tx2()),
            h.holders + {t.key1} + (if Granted(h, t) then {t.key2} else {}),
            h.declined + if Granted(h, t) then {} else {t.key2})
  }

  /** A worker's turn is the pick of the scheduler object. */
  lemma ServeIsPick(h: House, budget: nat)
    requires MayMove(h, Serve(budget))
    ensures var d := DeskOf(h, budget); var c := Pick(d, h.w.txs).value;
      DeskOf(Moved(h, Serve(budget)), SatSub(budget, c.Cost())) == After(d, c)
  {
    hide Pick;
  }

  ghost predicate MayRun(h: House, ms: seq<Move>)
    decreases |ms|
  {
    ms == [] || (MayMove(h, ms[0]) && MayRun(Moved(h, ms[0]), ms[1..]))
  }

  ghost function Ran(h: House, ms: seq<Move>): House
    requires MayRun(h, ms)
    decreases |ms|
  {
    if ms == [] then h else Ran(Moved(h, ms[0]), ms[1..])
  }

  function NewHouse(cfg: Config): House {
    House(Init(cfg), {}, {})
  }

  // ---- The same state without locks ----

  /** The batch scheduler's invariant has two parts: what it says about locks, and all the
      rest. The rest is its invariant of the state in which nothing locks anything. */
  function BareTxs(txs: map<Key, Tx>): map<Key, Tx> {
    map k | k in txs :: txs[k].(locks := [])
  }

  function Bare(w: World): World {
    w.(txs := BareTxs(w.txs))
  }

  function BareEvent(e: Event): Event {
    match e
    case Admit(k, tx) => Admit(k, tx.(locks := []))
    case AdmitBundle(b, added) => AdmitBundle(b, BareTxs(added))
    case StartTips(k1, tx1, k2, tx2) => StartTips(k1, tx1.(locks := []), k2, tx2.(locks := []))
    case _ => e
  }

  lemma BareFields(w: World)
    ensures Bare(w).checked == w.checked && Bare(w).bundles == w.bundles && Bare(w).executing == w.executing
    ensures Bare(w).txs.Keys == w.txs.Keys
  {
  }

  lemma BareDrop(w: World, k: Key)
    requires k in w.txs
    ensures Bare(Drop(w, k)) == Drop(Bare(w), k)
  {
    assert BareTxs(w.txs - {k}) == BareTxs(w.txs) - {k};
  }

  lemma BareEviction(w: World)
    requires w.checked != {} && First(w.checked).key in w.txs
    ensures Bare(EvictChecked(w)) == EvictChecked(Bare(w))
  {
    hide First, Drop;
    var m := First(w.checked);
    BareDrop(w.(checked := w.checked - {m}), m.key);
  }

  lemma BareCheck(w: World, m: PriorityId, verdict: CheckVerdict)
    requires Enabled(w, CheckReply(m, verdict))
    ensures Enabled(Bare(w), CheckReply(m, verdict))
    ensures Bare(Protocol.OnCheck(w, m, verdict)) == Protocol.OnCheck(Bare(w), m, verdict)
  {
    hide First, Drop, EvictChecked;
    var w1 := w.(checks := w.checks - multiset{m});
    BareDrop(w1, m.key);
    BareDrop(w1.(checked := w.checked - {m}), m.key);
    if w.checked != {} && First(w.checked).key in w.txs {
      BareEviction(w1);
    }
  }

  lemma BareExecute(w: World, m: PriorityId, outcome: Outcome)
    requires Enabled(w, ExecuteReply(m, outcome))
    ensures Enabled(Bare(w), ExecuteReply(m, outcome))
    ensures Bare(Protocol.OnExecute(w, m, outcome)) == Protocol.OnExecute(Bare(w), m, outcome)
  {
    hide First, Drop, EvictChecked, EvictIfOver, IsRetryable;
    var w1 := Finished(w, m);
    BareDrop(w1, m.key);
    if outcome.Executed? {
      OnExecuteCases(w, m, outcome);
      OnExecuteCases(Bare(w), m, outcome);
      hide Protocol.OnExecute;
      BareOver(Returned(w1, m, outcome.slot == w.slot && outcome.reason != AccountInUse));
    }
  }

  /** Making room commutes with forgetting the locks. */
  lemma BareOver(w: World)
    requires forall x | x in w.checked :: x.key in w.txs
    ensures forall x | x in Bare(w).checked :: x.key in Bare(w).txs
    ensures Bare(EvictIfOver(w)) == EvictIfOver(Bare(w))
  {
    hide First, Drop, EvictChecked;
    if w.checked != {} {
      FirstIsIn(w.checked);
      BareEviction(w);
    }
  }

  lemma BareArrivals(txs: map<Key, Tx>, added: map<Key, Tx>)
    ensures BareTxs(txs + added) == BareTxs(txs) + BareTxs(added)
  {
  }

  lemma BareAdmission(w: World, k: Key, tx: Tx)
    requires Enabled(w, Admit(k, tx))
    ensures Enabled(Bare(w), BareEvent(Admit(k, tx))) && Bare(Apply(w, Admit(k, tx))) == Apply(Bare(w), BareEvent(Admit(k, tx)))
  {
    assert BareTxs(w.txs[k := tx]) == BareTxs(w.txs)[k := tx.(locks := [])];
  }

  lemma BareBundle(w: World, b: BundleId, added: map<Key, Tx>)
    requires Enabled(w, AdmitBundle(b, added))
    ensures var e := AdmitBundle(b, added); Enabled(Bare(w), BareEvent(e)) && Bare(Apply(w, e)) == Apply(Bare(w), BareEvent(e))
  {
    BareArrivals(w.txs, added);
  }

  lemma BareEvict(w: World)
    requires Enabled(w, EvictUnchecked)
    ensures Enabled(Bare(w), EvictUnchecked) && Bare(Apply(w, EvictUnchecked)) == Apply(Bare(w), EvictUnchecked)
  {
    hide First, Drop;
    var m := First(w.unchecked);
    BareDrop(w.(unchecked := w.unchecked - {m}), m.key);
  }

  lemma BareDropBundle(w: World, b: BundleId)
    requires Enabled(w, DropBundle(b))
    ensures Enabled(Bare(w), DropBundle(b)) && Bare(Apply(w, DropBundle(b))) == Apply(Bare(w), DropBundle(b))
  {
    assert BareTxs(w.txs - KeySet(b.keys)) == BareTxs(w.txs) - KeySet(b.keys);
  }

  /** Forgetting the locks commutes with every shared event. */
  lemma BareCommutes(w: World, e: Event)
    requires Enabled(w, e) && IsShared(e)
    ensures Enabled(Bare(w), BareEvent(e)) && Bare(Apply(w, e)) == Apply(Bare(w), BareEvent(e))
  {
    hide Protocol.OnCheck, Protocol.OnExecute, Drop, First, Last, BareTxs, DistinctAccounts, DistinctKeys, BundleTxs;
    match e
    case Admit(k, tx) => BareAdmission(w, k, tx);
    case EvictUnchecked => BareEvict(w);
    case AdmitBundle(b, added) => BareBundle(w, b, added);
    case DropBundle(b) => BareDropBundle(w, b);
    case CheckReply(m, verdict) => BareCheck(w, m, verdict);
    case ExecuteReply(m, outcome) => BareExecute(w, m, outcome);
    case _ =>
  }

  // ---- The invariant ----

  ghost predicate Holding(h: House) {
    && h.w.executing == h.holders + h.declined && h.holders !! h.declined
    && h.w.executing <= h.w.txs.Keys && Compatible(h.holders, h.w.txs)
  }

  ghost predicate Proper(h: House) {
    Inv(Bare(h.w)) && Holding(h)
  }

  // ---- What the shared events leave alone ----

  /** What executes in both states has the same transaction in both. */
  ghost predicate SameExecuting(w: World, w': World) {
    forall k | k in w'.executing :: k in w.executing && k in w.txs && k in w'.txs && w'.txs[k] == w.txs[k]
  }

  lemma DropFrame(w: World, k: Key)
    requires k in w.txs && k !in w.executing && w.executing <= w.txs.Keys
    ensures Drop(w, k).executing == w.executing && SameExecuting(w, Drop(w, k))
  {
  }

  lemma EvictFrame(w: World)
    requires w.executing <= w.txs.Keys && forall x | x in w.checked :: x.key in w.txs && x.key !in w.executing
    requires w.checked != {} && First(w.checked).key in w.txs
    ensures EvictChecked(w).executing == w.executing && SameExecuting(w, EvictChecked(w))
  {
    hide First, Drop;
    FirstIsIn(w.checked);
    DropFrame(w.(checked := w.checked - {First(w.checked)}), First(w.checked).key);
  }

  lemma CheckFrame(w: World, m: PriorityId, verdict: CheckVerdict)
    requires Enabled(w, CheckReply(m, verdict)) && w.executing <= w.txs.Keys
    requires forall x | x in w.checked :: x.key in w.txs && x.key !in w.executing
    ensures Protocol.OnCheck(w, m, verdict).executing == w.executing && SameExecuting(w, Protocol.OnCheck(w, m, verdict))
  {
    hide First, Drop, EvictChecked;
    var w1 := w.(checks := w.checks - multiset{m});
    if m.key !in w.executing {
      DropFrame(w1, m.key);
      DropFrame(w1.(checked := w.checked - {m}), m.key);
    }
    if w.checked != {} && First(w.checked).key in w.txs {
      EvictFrame(w1);
    }
  }

  lemma ExecuteFrame(w: World, m: PriorityId, outcome: Outcome)
    requires Enabled(w, ExecuteReply(m, outcome)) && w.executing <= w.txs.Keys
    requires forall x | x in w.checked :: x.key in w.txs && x.key !in w.executing
    ensures var w' := Protocol.OnExecute(w, m, outcome); w'.executing == w.executing - {m.key} && SameExecuting(w, w')
  {
    hide First, IsRetryable, Drop, EvictChecked;
    var w1 := Finished(w, m);
    DropFrame(w1, m.key);
    if outcome.Executed? {
      var w2 := if DefersReply(w, outcome) then w1.(deferred := w.deferred + {m}) else w1.(checked := w.checked + {m});
      if w2.checked != {} {
        FirstIsIn(w2.checked);
        EvictFrame(w2);
      }
    }
  }

  /** Whatever goes on executing keeps its transaction. */
  lemma SharedFrame(w: World, e: Event)
    requires Sound(Bare(w), {}) && Enabled(w, e) && IsShared(e)
    ensures Apply(w, e).executing == Released(w.executing, e) && SameExecuting(w, Apply(w, e))
  {
    hide Sound, Protocol.OnCheck, Protocol.OnExecute, Apply, Enabled, BareTxs;
    ExecutingApart(Bare(w));
    BareFields(w);
    match e
    case CheckReply(m, verdict) =>
      CheckReplyIs(w, m, verdict);
      CheckFrame(w, m, verdict);
    case ExecuteReply(m, outcome) =>
      ExecuteReplyIs(w, m, outcome);
      ExecuteFrame(w, m, outcome);
    case _ =>
      DroppedIsQuiet(w, e);
      QuietFrame(w, e);
  }

  lemma DroppedIsQuiet(w: World, e: Event)
    requires Sound(Bare(w), {}) && Enabled(w, e)
    ensures e.DropBundle? ==> forall k | k in KeySet(e.bundle.keys) :: k !in w.executing
  {
    if e.DropBundle? {
      assert e.bundle in Bare(w).bundles;
      hide Sound;
      BundleNotExecuting(Bare(w), e.bundle);
    }
  }

  // ---- The moves keep the invariant ----

  lemma HoldingStays(h: House, w': World, e: Event)
    requires Holding(h) && w'.executing == Released(h.w.executing, e) && SameExecuting(h.w, w')
    ensures Holding(House(w', Released(h.holders, e), Released(h.declined, e)))
  {
    hide Conflict;
  }

  lemma SharedKeeps(h: House, e: Event)
    requires Proper(h) && MayMove(h, Shared(e))
    ensures Proper(Moved(h, Shared(e)))
  {
    assert Sound(Bare(h.w), {});
    hide Inv, Sound, Enabled, Apply, Bare, BareEvent, Holding, SameExecuting, Released, FreeOf, Pick;
    BareCommutes(h.w, e);
    EventKeepsInv(Bare(h.w), BareEvent(e));
    SharedFrame(h.w, e);
    HoldingStays(h, Apply(h.w, e), e);
  }

  /** Keys that are free of the holders and of each other may hold locks with them. */
  lemma CompatibleTogether(holders: set<Key>, keys: set<Key>, txs: map<Key, Tx>)
    requires Compatible(holders, txs) && holders + keys <= txs.Keys && forall k | k in keys :: FreeOf(holders, txs, k)
    requires forall j, k | j in keys && k in keys && j != k :: !Conflict(txs[j].locks, txs[k].locks)
    ensures Compatible(holders + keys, txs)
  {
    hide Conflict;
    forall j, k | j in holders && k in keys ensures !Conflict(txs[j].locks, txs[k].locks) && !Conflict(txs[k].locks, txs[j].locks) {
      ConflictIsMutual(txs[j].locks, txs[k].locks);
    }
  }

  lemma PickedApart(d: Desk, txs: map<Key, Tx>)
    requires Pick(d, txs).Some?
    ensures var ks := KeySet(Pick(d, txs).value.Keys());
      forall j, k | j in ks && k in ks && j != k :: j in txs && k in txs && !Conflict(txs[j].locks, txs[k].locks)
  {
    hide Conflict, Last, LastBundle, EligibleOf;
    var c := Pick(d, txs).value;
    if c.Pack? {
      var keys := c.bundle.keys;
      forall j, k | j in KeySet(keys) && k in KeySet(keys) && j != k ensures j in txs && k in txs && !Conflict(txs[j].locks, txs[k].locks) {
        var i :| 0 <= i < |keys| && keys[i] == j;
        var l :| 0 <= l < |keys| && keys[l] == k;
        ConflictIsMutual(txs[keys[i]].locks, txs[keys[l]].locks);
      }
    }
  }

  lemma NothingLocked(w: World, k: Key)
    requires k in w.txs
    ensures k in Bare(w).txs && Free(Bare(w), Bare(w).txs[k].locks)
  {
  }

  lemma BareStart(w: World, c: Candidate)
    ensures Bare(Start(w, c)) == Start(Bare(w), c) && InFlightCus(Bare(w)) == InFlightCus(w)
  {
  }

  lemma BundleKeysKnown(w: World, b: BundleId)
    requires Sound(w, {}) && b in w.bundles
    ensures forall k | k in b.keys :: k in w.txs && k !in w.executing
  {
  }

  lemma CheckedKnown(w: World, m: PriorityId)
    requires Sound(w, {}) && m in w.checked
    ensures m.key in w.txs && m.key !in w.executing
  {
  }

  /** Whichever of the waiting candidates starts, if the units allow it. */
  lemma StartKeepsInv(w: World, c: Candidate)
    requires Inv(Bare(w)) && InFlightCus(w) + c.Cost() <= MAX_BLOCK_UNITS
    requires if c.Single? then c.id in w.checked else c.bundle in w.bundles
    ensures Inv(Bare(Start(w, c)))
    ensures forall k | k in KeySet(c.Keys()) :: k in w.txs && k !in w.executing
  {
    assert Sound(Bare(w), {}) && WithinCapacity(Bare(w));
    hide Sound, WithinCapacity, Start, Bare, InFlightCus, Free;
    BareStart(w, c);
    BareFields(w);
    match c {
      case Single(m) =>
        CheckedKnown(Bare(w), m);
        NothingLocked(w, m.key);
        StartSingleSound(Bare(w), m);
        StartSingleCapacity(Bare(w), m);
      case Pack(b) =>
        BundleKeysKnown(Bare(w), b);
        forall k | k in b.keys ensures k in Bare(w).txs && Free(Bare(w), Bare(w).txs[k].locks) {
          NothingLocked(w, k);
        }
        StartPackSound(Bare(w), b);
        StartPackCapacity(Bare(w), b);
    }
  }

  lemma ServeKeeps(h: House, budget: nat)
    requires Proper(h) && MayMove(h, Serve(budget))
    ensures Proper(Moved(h, Serve(budget)))
  {
    hide Inv, Pick, Bare, FreeOf, Compatible, InFlightCus, Conflict;
    var d := DeskOf(h, budget);
    var c := Pick(d, h.w.txs).value;
    PickedIsFree(d, h.w.txs);
    PickedApart(d, h.w.txs);
    StartKeepsInv(h.w, c);
    CompatibleTogether(h.holders, KeySet(c.Keys()), h.w.txs);
  }

  lemma BareTips(w: World, t: TipPair)
    requires t.Fresh(w.txs)
    ensures var e := BareEvent(t.Event());
      && Enabled(Bare(w), e)
      && Apply(Bare(w), e) == Bare(TipsStarted(w, t.key1, t.Tx1(), t.key2, t.Tx2()))
  {
    var added := map[t.key1 := t.Tx1(), t.key2 := t.Tx2()];
    BareArrivals(w.txs, added);
    assert BareTxs(added) == map[t.key1 := t.Tx1().(locks := []), t.key2 := t.Tx2().(locks := [])];
    BareIsFree(w);
    hide BareTxs, Free;
  }

  lemma BareIsFree(w: World)
    ensures Free(Bare(w), []) && BareTxs(w.txs).Keys == w.txs.Keys
  {
  }

  lemma TipsCompatible(h: House, t: TipPair)
    requires Holding(h) && MayMove(h, SendTips(t))
    ensures var h' := Moved(h, SendTips(t)); Compatible(h'.holders, h'.w.txs)
  {
    hide Conflict, DistinctAccounts;
    var txs := h.w.txs + map[t.key1 := t.Tx1(), t.key2 := t.Tx2()];
    assert Compatible(h.holders, txs);
    assert FreeOf(h.holders, txs, t.key1);
    CompatibleGrows(h.holders, txs, t.key1);
    if Granted(h, t) {
      SecondIsFreeIff(h.holders, txs, t);
      CompatibleGrows(h.holders + {t.key1}, txs, t.key2);
    }
  }

  lemma SendTipsKeeps(h: House, t: TipPair)
    requires Proper(h) && MayMove(h, SendTips(t))
    ensures Proper(Moved(h, SendTips(t)))
  {
    hide Inv, Bare, BareEvent, Apply, Enabled, Compatible, Granted, FreeOf, DistinctAccounts;
    BareTips(h.w, t);
    EventKeepsInv(Bare(h.w), BareEvent(t.Event()));
    TipsCompatible(h, t);
  }

  lemma MoveKeepsProper(h: House, m: Move)
    requires Proper(h) && MayMove(h, m)
    ensures Proper(Moved(h, m))
  {
    hide Proper, MayMove, Moved;
    match m
    case Shared(e) => SharedKeeps(h, e);
    case Serve(budget) => ServeKeeps(h, budget);
    case SendTips(t) => SendTipsKeeps(h, t);
  }

  lemma {:induction false} RunKeepsProper(h: House, ms: seq<Move>)
    requires Proper(h) && MayRun(h, ms)
    ensures Proper(Ran(h, ms))
    decreases |ms|
  {
    hide Proper, MayMove, Moved;
    if ms != [] {
      MoveKeepsProper(h, ms[0]);
      RunKeepsProper(Moved(h, ms[0]), ms[1..]);
    }
  }

  lemma NewIsProper(cfg: Config)
    ensures Proper(NewHouse(cfg))
  {
    InitInv(cfg);
    assert Bare(Init(cfg)) == Init(cfg);
  }

  // ---- What holds in every reachable state ----

  lemma SamePlaces(w: World)
    ensures forall k | k in w.txs :: k in Bare(w).txs && Meta(Bare(w), k) == Meta(w, k) && Places(Bare(w), k) == Places(w, k)
    ensures forall m :: Awaiting(Bare(w), m) <==> Awaiting(w, m)
    ensures LooseExecuting(Bare(w)) == LooseExecuting(w)
  {
    hide InBundle;
  }

  /** As in the batch scheduler, each live key is in exactly one of the six places, its
      first check message is unique, and so is the execute message of an executing key. */
  lemma OnePlaceInAuction(cfg: Config, ms: seq<Move>)
    requires MayRun(NewHouse(cfg), ms)
    ensures var w := Ran(NewHouse(cfg), ms).w;
      && (forall k | k in w.txs :: Places(w, k) == 1)
      && (forall m | Awaiting(w, m) :: w.checks[m] == 1)
      && (forall k | k in w.executing :: k in w.txs && w.executes[Meta(w, k)] == 1)
  {
    NewIsProper(cfg);
    RunKeepsProper(NewHouse(cfg), ms);
    var w := Ran(NewHouse(cfg), ms).w;
    assert Sound(Bare(w), {});
    hide Sound, MayRun, Ran, Places, Awaiting, BareTxs, Compatible;
    OnePlaceEach(Bare(w));
    SamePlaces(w);
    BareFields(w);
  }

  lemma MoveKeepsConfig(h: House, m: Move)
    requires MayMove(h, m)
    ensures Moved(h, m).w.cfg == h.w.cfg
  {
    hide Enabled, Apply, Pick, FreeOf;
    if m.Shared? {
      EventKeepsConfig(h.w, m.event);
    }
  }

  lemma {:induction false} AuctionKeepsConfig(h: House, ms: seq<Move>)
    requires MayRun(h, ms)
    ensures Ran(h, ms).w.cfg == h.w.cfg
    decreases |ms|
  {
    hide MayMove, Moved;
    if ms != [] {
      MoveKeepsConfig(h, ms[0]);
      AuctionKeepsConfig(Moved(h, ms[0]), ms[1..]);
    }
  }

  /** The units in flight never exceed a block and are zero once nothing executes; the
      checked side, the unchecked queue and the bundles keep their capacities. */
  lemma BoundsInAuction(cfg: Config, ms: seq<Move>)
    requires MayRun(NewHouse(cfg), ms)
    ensures var w := Ran(NewHouse(cfg), ms).w;
      && InFlightCus(w) <= MAX_BLOCK_UNITS
      && (w.executing == {} ==> InFlightCus(w) == 0)
      && |w.checked| + |w.deferred| + |LooseExecuting(w)| <= cfg.checkedCapacity
      && |w.unchecked| <= cfg.uncheckedCapacity
      && |w.bundles| <= cfg.bundleCapacity
  {
    NewIsProper(cfg);
    RunKeepsProper(NewHouse(cfg), ms);
    AuctionKeepsConfig(NewHouse(cfg), ms);
    var w := Ran(NewHouse(cfg), ms).w;
    assert OneExecuteEach(Bare(w).txs, w.executing, w.executes) && WithinCapacity(Bare(w));
    hide Sound, MayRun, Ran, BareTxs, Compatible;
    SamePlaces(w);
    if w.executing == {} {
      assert w.executes == multiset{};
    }
  }

  // ---- Conflicts over runs ----

  /** The second tips of a run that got no locks when they were sent. */
  ghost function Refused(h: House, ms: seq<Move>): set<Key>
    requires MayRun(h, ms)
    decreases |ms|
  {
    if ms == [] then {}
    else
      (if ms[0].SendTips? && !Granted(h, ms[0].tips) then {ms[0].tips.key2} else {}) + Refused(Moved(h, ms[0]), ms[1..])
  }

  /** Nothing is ever declined its locks but a second tip. */
  lemma {:induction false} OnlySecondTipsAreDeclined(h: House, ms: seq<Move>)
    requires MayRun(h, ms)
    ensures Ran(h, ms).declined <= h.declined + Refused(h, ms)
    decreases |ms|
  {
    if ms != [] {
      DeclinedStep(h, ms[0]);
      hide MayMove, Moved, Granted;
      OnlySecondTipsAreDeclined(Moved(h, ms[0]), ms[1..]);
    }
  }

  lemma DeclinedStep(h: House, m: Move)
    requires MayMove(h, m)
    ensures Moved(h, m).declined <= h.declined + if m.SendTips? && !Granted(h, m.tips) then {m.tips.key2} else {}
  {
    hide Enabled, Apply, Pick, FreeOf, Granted;
  }

  /** The move sends a pair with this second tip, which conflicts with the first or with
      something that holds locks by then. */
  ghost predicate RefusedAt(h: House, ms: seq<Move>, i: nat, k: Key)
    requires i < |ms|
  {
    && MayRun(h, ms[..i]) && ms[i].SendTips? && ms[i].tips.key2 == k
    && var now, t := Ran(h, ms[..i]), ms[i].tips;
    Conflict(t.locks1, t.locks2) || exists j :: j in now.holders && j in now.w.txs && Conflict(t.locks2, now.w.txs[j].locks)
  }

  lemma RefusedFirst(h: House, ms: seq<Move>, k: Key)
    requires Holding(h) && MayRun(h, ms) && ms != []
    ensures RefusedAt(h, ms, 0, k) <==> ms[0].SendTips? && !Granted(h, ms[0].tips) && ms[0].tips.key2 == k
  {
    hide Conflict, DistinctAccounts, Compatible, Moved;
    assert ms[..0] == [];
    assert MayRun(h, []) && Ran(h, []) == h;
  }

  lemma RefusedLater(h: House, ms: seq<Move>, i: nat, k: Key)
    requires MayRun(h, ms) && i + 1 < |ms|
    ensures RefusedAt(h, ms, i + 1, k) <==> RefusedAt(Moved(h, ms[0]), ms[1..], i, k)
  {
    hide MayMove, Moved, Conflict;
    var front := ms[..i + 1];
    assert front != [] && front[0] == ms[0] && front[1..] == ms[1..][..i] && ms[1..][i] == ms[i + 1];
    assert MayRun(h, front) <==> MayRun(Moved(h, ms[0]), ms[1..][..i]);
    if MayRun(h, front) {
      assert Ran(h, front) == Ran(Moved(h, ms[0]), ms[1..][..i]);
    }
    hide MayRun, Ran;
  }

  lemma ProperHolds(h: House)
    requires Proper(h)
    ensures Holding(h)
  {
  }

  lemma RefusedStep(h: House, ms: seq<Move>, k: Key)
    requires Holding(h) && MayRun(h, ms) && ms != []
    ensures MayMove(h, ms[0]) && MayRun(Moved(h, ms[0]), ms[1..])
    ensures k in Refused(h, ms) <==> RefusedAt(h, ms, 0, k) || k in Refused(Moved(h, ms[0]), ms[1..])
  {
    hide Holding, MayMove, Moved, Granted, RefusedAt;
    RefusedFirst(h, ms, k);
  }

  /** The refused second tips of a run are those that conflicted when they were sent. */
  lemma {:induction false} RefusedIff(h: House, ms: seq<Move>, k: Key)
    requires Proper(h) && MayRun(h, ms)
    ensures k in Refused(h, ms) <==> exists i: nat :: i < |ms| && RefusedAt(h, ms, i, k)
    decreases |ms|
  {
    hide Proper, Holding, MayMove, Moved, MayRun, RefusedAt;
    if ms != [] {
      ProperHolds(h);
      RefusedStep(h, ms, k);
      hide Refused;
      MoveKeepsProper(h, ms[0]);
      var h' := Moved(h, ms[0]);
      RefusedIff(h', ms[1..], k);
      if i: nat :| i < |ms| && RefusedAt(h, ms, i, k) {
        if i > 0 {
          RefusedLater(h, ms, i - 1, k);
        }
      }
      if j: nat :| j < |ms| - 1 && RefusedAt(h', ms[1..], j, k) {
        RefusedLater(h, ms, j, k);
      }
    }
  }

  /** In every reachable state, two executing transactions conflict only if one of them is
      a second tip that got no locks when it was sent: one that overlapped the first, or
      was not free of the holders. */
  lemma ConflictsInAuction(cfg: Config, ms: seq<Move>, j: Key, k: Key)
    requires MayRun(NewHouse(cfg), ms)
    requires var w := Ran(NewHouse(cfg), ms).w;
      j in w.executing && k in w.executing && j != k && j in w.txs && k in w.txs && Conflict(w.txs[j].locks, w.txs[k].locks)
    ensures var h := Ran(NewHouse(cfg), ms); var refused := h.declined * Refused(NewHouse(cfg), ms);
      (j in refused && j !in h.holders) || (k in refused && k !in h.holders)
  {
    NewIsProper(cfg);
    RunKeepsProper(NewHouse(cfg), ms);
    OnlySecondTipsAreDeclined(NewHouse(cfg), ms);
    hide Inv, Conflict, MayRun, Ran, Refused;
  }

  lemma HoldersExecute(h: House)
    requires Proper(h) && h.declined == {}
    ensures Compatible(h.w.executing, h.w.txs)
  {
    hide Inv, Compatible;
    assert h.w.executing == h.holders;
  }

  /** A run that refuses no second tip keeps executing transactions free of conflicts. */
  lemma NoConflictsWithoutRefusal(cfg: Config, ms: seq<Move>)
    requires MayRun(NewHouse(cfg), ms) && Refused(NewHouse(cfg), ms) == {}
    ensures var w := Ran(NewHouse(cfg), ms).w; Compatible(w.executing, w.txs)
  {
    hide Proper, Compatible, MayRun, Ran, Refused;
    NewIsProper(cfg);
    RunKeepsProper(NewHouse(cfg), ms);
    OnlySecondTipsAreDeclined(NewHouse(cfg), ms);
    HoldersExecute(Ran(NewHouse(cfg), ms));
  }

  /** Whatever a worker's turn starts conflicts with something that executes exactly when
      it conflicts with something that was declined its locks. */
  lemma ServedConflictsIff(h: House, budget: nat)
    requires Holding(h) && MayMove(h, Serve(budget))
    ensures var c := Pick(DeskOf(h, budget), h.w.txs).value;
      OnlyDeclinedInTheWay(KeySet(c.Keys()), h.w.executing, h.declined, h.w.txs)
  {
    hide Pick, FreeOf, OnlyDeclinedInTheWay, Compatible;
    PickedIsFree(DeskOf(h, budget), h.w.txs);
    StartsConflictIff(KeySet(Pick(DeskOf(h, budget), h.w.txs).value.Keys()), h.holders, h.declined, h.w.txs);
  }

  // ---- The moves in words, and a run that ends in a conflict ----

  /** The pair can be sent exactly when the first tip conflicts with no holder. Both execute
      then, and the second holds locks exactly when it conflicts with none of them either. */
  lemma SendTipsIs(h: House, t: TipPair)
    requires Holding(h)
    ensures MayMove(h, SendTips(t)) <==>
      t.Fresh(h.w.txs) && forall k | k in h.holders :: k in h.w.txs && !Conflict(t.locks1, h.w.txs[k].locks)
    ensures MayMove(h, SendTips(t)) ==>
      var h' := Moved(h, SendTips(t));
      && h'.w.executing == h.w.executing + {t.key1, t.key2}
      && h'.w.txs == h.w.txs + map[t.key1 := Tx(t.locks1, BUNDLE_MARKER, 0), t.key2 := Tx(t.locks2, BUNDLE_MARKER, 0)]
      && (h'.w.checked == h.w.checked && h'.w.bundles == h.w.bundles && InFlightCus(h'.w) == InFlightCus(h.w))
      && if !Conflict(t.locks1, t.locks2) && forall k | k in h.holders :: k in h.w.txs && !Conflict(t.locks2, h.w.txs[k].locks)
         then h'.holders == h.holders + {t.key1, t.key2} && h'.declined == h.declined
         else h'.holders == h.holders + {t.key1} && h'.declined == h.declined + {t.key2}
  {
    hide Conflict, DistinctAccounts, Compatible, InFlightCus;
    TipUnits(h.w, t);
  }

  lemma TipUnits(w: World, t: TipPair)
    ensures InFlightCus(TipsStarted(w, t.key1, t.Tx1(), t.key2, t.Tx2())) == InFlightCus(w)
  {
    var m1, m2 := MetaOf(t.key1, t.Tx1()), MetaOf(t.key2, t.Tx2());
    SumCostAdd(w.executes, m1);
    SumCostAdd(w.executes + multiset{m1}, m2);
    assert w.executes + multiset{m1} + multiset{m2} == w.executes + multiset{m1, m2};
  }

  /** A worker's turn gives it something exactly when the block has room for the budget, and
      a checked transaction may lead and fits clear of the holders, or the greatest bundle
      does. What it starts executes and holds its locks. */
  lemma ServeIs(h: House, budget: nat)
    requires AllKnown(DeskOf(h, budget), h.w.txs)
    ensures MayMove(h, Serve(budget)) <==>
      && InFlightCus(h.w) + budget <= 60_000_000
      && (|| (TransactionsLead(h.w.checked, h.w.bundles)
              && exists m :: m in h.w.checked && m.cost <= budget && Clear(m.key, h.holders, h.w.txs))
          || exists b :: IsGreatest(b, h.w.bundles) && b.cost <= budget && MembersClear(b, h.holders, h.w.txs))
    ensures MayMove(h, Serve(budget)) ==>
      var started := KeySet(Pick(DeskOf(h, budget), h.w.txs).value.Keys());
      var h' := Moved(h, Serve(budget));
      && h'.w.executing == h.w.executing + started && h'.holders == h.holders + started
      && h'.declined == h.declined && h'.w.txs == h.w.txs
  {
    hide Pick, InFlightCus, TransactionsLead, IsGreatest, Clear, MembersClear;
    PickIs(DeskOf(h, budget), h.w.txs);
  }

  lemma {:induction false} MoveAgain(h: House, ms: seq<Move>, m: Move)
    requires MayRun(h, ms) && MayMove(Ran(h, ms), m)
    ensures MayRun(h, ms + [m]) && Ran(h, ms + [m]) == Moved(Ran(h, ms), m)
    decreases |ms|
  {
    hide MayMove, Moved;
    if ms == [] {
      assert [] + [m] == [m];
      assert Ran(Moved(h, m), []) == Moved(h, m);
    } else {
      MoveAgain(Moved(h, ms[0]), ms[1..], m);
      assert (ms + [m])[1..] == ms[1..] + [m];
    }
  }

  lemma {:induction false} SharedRun(h: House, es: seq<Event>)
    requires Possible(h.w, es) && h.holders == {} && h.declined == {}
    requires forall e | e in es :: IsShared(e) && !e.SendRecheck?
    ensures var ms := SharedMoves(es); MayRun(h, ms) && Ran(h, ms) == House(Run(h.w, es), {}, {})
    decreases |es|
  {
    hide Enabled, Apply;
    if es != [] {
      assert es[0] in es;
      SharedRun(Moved(h, Shared(es[0])), es[1..]);
    }
  }

  function SharedMoves(es: seq<Event>): seq<Move> {
    if es == [] then [] else [Shared(es[0])] + SharedMoves(es[1..])
  }

  /** For every pair of tips that overlap and every transaction that conflicts with the
      second one only, a run ends with that tip and the transaction executing together. */
  lemma ConflictsAreReachable(cfg: Config, t: TipPair, tx: Tx) returns (ms: seq<Move>)
    requires cfg.uncheckedCapacity > 0 && cfg.checkedCapacity > 0 && t.Fresh(map[0 := tx])
    requires Conflict(t.locks1, t.locks2) && Ordinary(tx) && Conflict(tx.locks, t.locks2) && !Conflict(tx.locks, t.locks1)
    ensures MayRun(NewHouse(cfg), ms)
    ensures var w := Ran(NewHouse(cfg), ms).w;
      && w.executing == {t.key1, t.key2, 0} && t.key2 in w.txs && 0 in w.txs
      && w.txs[0] == tx && w.txs[t.key2].locks == t.locks2 && Conflict(w.txs[0].locks, w.txs[t.key2].locks)
  {
    hide Ordinary, Apply, Enabled, Possible, Run, MayMove, Moved, MayRun, Ran, SharedMoves, Conflict, InFlightCus, DistinctAccounts;
    var es, m := [Admit(0, tx), SendCheck, CheckReply(MetaOf(0, tx), CheckOk)], MetaOf(0, tx);
    FirstPasses(cfg, tx);
    ThreeSteps(Init(cfg), es[0], es[1], es[2]);
    SharedRun(NewHouse(cfg), es);
    var h3 := House(OnePassed(cfg, tx), {}, {});
    SendTipsIs(h3, t);
    var h4 := Moved(h3, SendTips(t));
    MoveAgain(NewHouse(cfg), SharedMoves(es), SendTips(t));
    OrdinaryFits(tx);
    NothingInFlight(cfg, tx);
    assert Clear(m.key, h4.holders, h4.w.txs) by {
      assert h4.w.txs[0] == tx;
    }
    PickOnlyOne(DeskOf(h4, tx.cost), h4.w.txs, m);
    assert TransactionsLead(h4.w.checked, h4.w.bundles);
    ServeIs(h4, tx.cost);
    assert KeySet([m.key]) == {0};
    ms := SharedMoves(es) + [SendTips(t)] + [Serve(tx.cost)];
    MoveAgain(NewHouse(cfg), SharedMoves(es) + [SendTips(t)], Serve(tx.cost));
  }

  lemma NothingInFlight(cfg: Config, tx: Tx)
    ensures InFlightCus(OnePassed(cfg, tx)) == 0
  {
  }

  lemma ThreeSteps(w: World, e1: Event, e2: Event, e3: Event)
    requires Enabled(w, e1)
    requires var w1 := Apply(w, e1); Enabled(w1, e2) && Enabled(Apply(w1, e2), e3)
    ensures Possible(w, [e1, e2, e3]) && Run(w, [e1, e2, e3]) == Apply(Apply(Apply(w, e1), e2), e3)
  {
    hide Apply, Enabled, Possible, Run;
    OneStep(w, e1);
    RunSnoc(w, [e1], e2);
    assert [e1] + [e2] == [e1, e2];
    RunSnoc(w, [e1, e2], e3);
    assert [e1, e2] + [e3] == [e1, e2, e3];
  }
}
