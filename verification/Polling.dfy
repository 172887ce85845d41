/** What one poll takes in, and the events its stages perform. */
module Polling {
  import opened Orders
  import opened Locks
  import opened Protocol
  import opened Invariant
  import opened Capacity
  import opened Theorems
  import opened Ingest
  import opened Responses
  import opened Checks
  import opened Sequences
  import opened Merge
  import opened Schedule
  import opened Tips

  // ---- Slot rolls ----

  /** The state once the scheduler has caught up with the validator's slot. */
  ghost function Rolled(w: World, slot: Slot): World {
    if slot == w.slot then w else Apply(w, Roll(slot))
  }

  /** A new slot brings the deferred transactions back; becoming the leader sends the tip
      pair unless something executing conflicts with it. */
  ghost function RollEvents(w: World, slot: Slot, tipsDue: bool, t: TipPair): seq<Event> {
    (if slot == w.slot then [] else [Roll(slot)])
    + if tipsDue && Free(Rolled(w, slot), t.locks1) && Free(Rolled(w, slot), t.locks2) then [t.Event()] else []
  }

  /** The state after those events. */
  ghost function Opened(w: World, slot: Slot, tipsDue: bool, t: TipPair): World {
    var w1 := Rolled(w, slot);
    if tipsDue && Free(w1, t.locks1) && Free(w1, t.locks2) then TipsStarted(w1, t.key1, t.Tx1(), t.key2, t.Tx2()) else w1
  }

  lemma OpenedIsRun(w: World, slot: Slot, tipsDue: bool, t: TipPair)
    requires t.Fresh(w.txs)
    ensures Possible(w, RollEvents(w, slot, tipsDue, t)) && Run(w, RollEvents(w, slot, tipsDue, t)) == Opened(w, slot, tipsDue, t)
  {
    RollRuns(w, slot);
    RolledIs(w, slot);
    var w1 := Rolled(w, slot);
    if tipsDue && Free(w1, t.locks1) && Free(w1, t.locks2) {
      TipsStart(w1, t);
      hide Apply, Enabled, Rolled, TipsStarted, Free;
      RunSnoc(w, if slot == w.slot then [] else [Roll(slot)], t.Event());
    }
  }

  lemma RollRuns(w: World, slot: Slot)
    ensures var es := if slot == w.slot then [] else [Roll(slot)];
      Possible(w, es) && Run(w, es) == Rolled(w, slot)
  {
    if slot != w.slot {
      OneStep(w, Roll(slot));
    }
  }

  lemma RolledIs(w: World, slot: Slot)
    ensures Rolled(w, slot).txs == w.txs && Rolled(w, slot).slot == slot && Rolled(w, slot).executing == w.executing
  {
  }

  lemma NoRoll(w: World)
    ensures Rolled(w, w.slot) == w
  {
  }

  lemma RollIs(w: World, slot: Slot)
    requires slot != w.slot
    ensures var w1 := w.(slot := slot, checked := w.checked + w.deferred, deferred := {});
      Rolled(w, slot) == w1.(cursor := NextSweep(w1)) && Enabled(w, Roll(slot))
  {
  }

  lemma RolledKeepsInv(w: World, slot: Slot)
    requires Inv(w) && slot != w.slot
    ensures Inv(Rolled(w, slot))
  {
    hide Inv, Apply;
    EventKeepsInv(w, Roll(slot));
  }

  lemma DeferredApart(w: World)
    requires Inv(w)
    ensures w.checked !! w.deferred
  {
  }

  // ---- The block engine's updates ----

  /** A packet the bridge could not insert, a packet, or a bundle. */
  datatype Update = Refused | Loose(arrival: Arrival) | Bundled(packets: seq<Packet>, now: nat) {
    function Keys(): set<Key> {
      match this
      case Refused => {}
      case Loose(a) => {a.key}
      case Bundled(ps, _) => set p | p in ps :: p.key
    }

    ghost predicate WellFormed() {
      match this
      case Refused => true
      case Loose(a) => DistinctAccounts(a.locks)
      case Bundled(ps, _) => FreshPackets(ps, map[])
    }
  }

  ghost function UpdateEvents(w: World, u: Update): seq<Event> {
    match u
    case Refused => []
    case Loose(a) => PacketEvents(w, a)
    case Bundled(ps, now) => BundleEvents(w, ps, now)
  }

  /** What the updates do one after the other, each in the state the ones before left. */
  ghost function JitoEvents(w: World, us: seq<Update>): seq<Event> {
    if us == [] then []
    else
      var before := JitoEvents(w, us[..|us| - 1]);
      if Possible(w, before) then before + UpdateEvents(Run(w, before), us[|us| - 1]) else before
  }

  /** Updates may be taken in piecemeal: the later ones in the state the earlier ones left. */
  lemma {:induction false} JitoAppend(w: World, us: seq<Update>, vs: seq<Update>)
    requires Possible(w, JitoEvents(w, us))
    ensures JitoEvents(w, us + vs) == JitoEvents(w, us) + JitoEvents(Run(w, JitoEvents(w, us)), vs)
    decreases |vs|
  {
    hide Possible, Run, UpdateEvents;
    if vs == [] {
      assert us + vs == us;
    } else {
      var front := vs[..|vs| - 1];
      JitoAppend(w, us, front);
      assert (us + vs)[..|us + vs| - 1] == us + front;
      AppendIff(w, JitoEvents(w, us), JitoEvents(Run(w, JitoEvents(w, us)), front));
    }
  }

  /** Once an update fails, the following ones do not matter. */
  lemma {:induction false} FailureStays(w: World, us: seq<Update>, i: nat)
    requires i <= |us| && !Possible(w, JitoEvents(w, us[..i]))
    ensures !Possible(w, JitoEvents(w, us))
    decreases |us|
  {
    hide Possible, UpdateEvents;
    if i == |us| {
      assert us[..i] == us;
    } else {
      assert us[..|us| - 1][..i] == us[..i];
      FailureStays(w, us[..|us| - 1], i);
    }
  }

  ghost predicate FreshUpdates(us: seq<Update>, txs: map<Key, Tx>) {
    && (forall i | 0 <= i < |us| :: us[i].WellFormed() && us[i].Keys() !! txs.Keys)
    && (forall i, j | 0 <= i < j < |us| :: us[i].Keys() !! us[j].Keys())
  }

  function UpdateKeys(us: seq<Update>): set<Key> {
    set u, k | u in us && k in u.Keys() :: k
  }

  function ArrivalKeys(arrivals: seq<Arrival>): set<Key> {
    set a | a in arrivals :: a.key
  }

  /** Everything a poll takes in carries keys the bridge did not hold, all different. */
  ghost predicate FreshInput(txs: map<Key, Tx>, t: TipPair, arrivals: seq<Arrival>, us: seq<Update>) {
    && t.Fresh(txs) && FreshArrivals(arrivals, txs) && FreshUpdates(us, txs)
    && {t.key1, t.key2} !! ArrivalKeys(arrivals)
    && {t.key1, t.key2} + ArrivalKeys(arrivals) !! UpdateKeys(us)
  }

  // ---- Which keys a run may add ----

  function NewKeys(e: Event): set<Key> {
    match e
    case Admit(k, _) => {k}
    case AdmitBundle(_, added) => added.Keys
    case StartTips(k1, _, k2, _) => {k1, k2}
    case _ => {}
  }

  ghost predicate AddsOnly(es: seq<Event>, ks: set<Key>) {
    forall i | 0 <= i < |es| :: NewKeys(es[i]) <= ks
  }

  lemma EventAddsKeys(w: World, e: Event)
    requires Enabled(w, e)
    ensures Apply(w, e).txs.Keys <= w.txs.Keys + NewKeys(e)
  {
    hide Free, OnCheck, OnExecute, First, Last, DistinctAccounts, DistinctKeys, BundleTxs, InFlightCus, NextRecheck, NextSweep;
    match e
    case CheckReply(m, verdict) => OnCheckFrame(w, m, verdict);
    case ExecuteReply(m, outcome) => OnExecuteFrame(w, m, outcome);
    case _ =>
  }

  lemma {:induction false} RunAddsKeys(w: World, es: seq<Event>, ks: set<Key>)
    requires Possible(w, es) && AddsOnly(es, ks)
    ensures Run(w, es).txs.Keys <= w.txs.Keys + ks
    decreases |es|
  {
    hide Apply, Enabled;
    if es != [] {
      EventAddsKeys(w, es[0]);
      assert forall i | 0 <= i < |es| - 1 :: es[1..][i] == es[i + 1];
      RunAddsKeys(Apply(w, es[0]), es[1..], ks);
    }
  }

  lemma {:induction false} AdmissionsAdd(arrivals: seq<Arrival>)
    ensures AddsOnly(Admissions(arrivals), ArrivalKeys(arrivals))
  {
    if arrivals != [] {
      var n := |arrivals| - 1;
      AdmissionsAdd(arrivals[..n]);
      assert arrivals[n] in arrivals;
      assert ArrivalKeys(arrivals[..n]) <= ArrivalKeys(arrivals);
    }
  }

  lemma UpdateAdds(w: World, u: Update)
    requires u.WellFormed()
    ensures AddsOnly(UpdateEvents(w, u), u.Keys())
  {
    if u.Bundled? {
      var ps := u.packets;
      BundleLabelsAt(ps, TotalCost(ps));
      assert forall k | k in BundleLabels(ps, TotalCost(ps)) :: k in u.Keys();
    }
  }

  lemma RollAdds(w: World, slot: Slot, tipsDue: bool, t: TipPair)
    ensures AddsOnly(RollEvents(w, slot, tipsDue, t), {t.key1, t.key2})
  {
    hide Free;
  }

  lemma StartSweepRuns(w: World)
    ensures Possible(w, [StartSweep]) && Run(w, [StartSweep]) == w.(cursor := NextSweep(w))
  {
    OneStep(w, StartSweep);
  }

  // ---- A whole poll ----

  /** What the validator, its workers and the block engine have for one poll. */
  datatype Input = Input(
    slot: Slot,
    leaderReady: bool,
    slotProgress: nat,
    remainingCostUnits: nat,
    tips: TipPair,
    responses: seq<WorkerResponse>,
    arrivals: seq<Arrival>,
    tpuLen: nat,
    updates: seq<Update>,
    now: nat,
    queuedChecks: nat,
    freeChecks: nat,
    idle: seq<bool>)
  {
    /** How many transactions the validator may hand over. */
    function MaxArrivals(): nat {
      if leaderReady then 128 else 1024
    }

    /** How many check messages may be sent. */
    function CheckRoom(maxCheckBatches: nat): nat {
      var wanted := SatSub(maxCheckBatches, queuedChecks);
      if wanted < freeChecks then wanted else freeChecks
    }
  }

  /** Each response of the poll answers a message that is out once the slot is checked. */
  ghost predicate Answered(w: World, input: Input, was: bool) {
    Deliverable(Opened(w, input.slot, input.leaderReady && !was, input.tips), input.responses)
  }

  ghost function OpeningEvents(w: World, input: Input, was: bool): seq<Event> {
    RollEvents(w, input.slot, input.leaderReady && !was, input.tips) + Events(input.responses)
  }

  /** The roll, the responses, the validator's transactions, the expired bundles and the
      block engine's updates, in that order. */
  ghost function IntakeEvents(w: World, input: Input, was: bool, expired: seq<Event>): seq<Event> {
    var opening := OpeningEvents(w, input, was);
    if !Possible(w, opening) then opening
    else
      var sofar := opening + TpuEvents(Run(w, opening), input.arrivals, input.tpuLen, input.MaxArrivals()) + expired;
      if !Possible(w, sofar) then sofar else sofar + JitoEvents(Run(w, sofar), input.updates)
  }

  /** The slot's change comes first, if it changed; then, for a new leader, the tip pair, if
      nothing that executes conflicts with either. */
  ghost predicate OpensWith(w: World, input: Input, was: bool, opening: seq<Event>) {
    var rolls := input.slot != w.slot;
    var tips := input.leaderReady && !was && forall k | k in w.executing && k in w.txs ::
      !Conflict(input.tips.locks1, w.txs[k].locks) && !Conflict(input.tips.locks2, w.txs[k].locks);
    && |opening| == Count(rolls) + Count(tips)
    && (rolls ==> opening[0] == Roll(input.slot))
    && (tips ==>
          var last := opening[|opening| - 1];
          last.StartTips? && last.key1 == input.tips.key1 && last.key2 == input.tips.key2)
  }

  /** Each arrival that scores and is not filtered is admitted. */
  ghost predicate AdmitsAll(arrivals: seq<Arrival>, es: seq<Event>) {
    forall a | a in arrivals && a.costReward.Some? && !a.filtered :: Admit(a.key, a.Label()) in es
  }

  /** Each packet that scores and is not filtered is admitted, and each bundle whose packets
      were all inserted, score and are not filtered. */
  ghost predicate TakesAll(us: seq<Update>, es: seq<Event>) {
    && (forall u | u in us && u.Loose? && u.arrival.costReward.Some? && !u.arrival.filtered ::
          Admit(u.arrival.key, u.arrival.Label()) in es)
    && (forall u | u in us && u.Bundled? && AcceptedAll(u.packets) ::
          exists e :: e in es && e.AdmitBundle? && e.bundle.keys == KeysOf(u.packets) && e.bundle.receivedAt == u.now)
  }

  lemma RollEventsOpen(w: World, input: Input, was: bool)
    ensures OpensWith(w, input, was, RollEvents(w, input.slot, input.leaderReady && !was, input.tips))
  {
    hide Conflict;
    RolledIs(w, input.slot);
  }

  lemma {:induction false} AdmissionsAll(arrivals: seq<Arrival>)
    ensures AdmitsAll(arrivals, Admissions(arrivals))
  {
    if arrivals != [] {
      AdmissionsAll(arrivals[..|arrivals| - 1]);
      assert arrivals == arrivals[..|arrivals| - 1] + [arrivals[|arrivals| - 1]];
    }
  }

  lemma OneTaken(w: World, u: Update)
    ensures TakesAll([u], UpdateEvents(w, u))
  {
    if u.Bundled? && AcceptedAll(u.packets) {
      assert AdmitBundle(BundleOf(u.packets, u.now), BundleLabels(u.packets, TotalCost(u.packets))) in UpdateEvents(w, u);
    }
  }

  lemma {:induction false} JitoTakesAll(w: World, us: seq<Update>)
    requires Possible(w, JitoEvents(w, us))
    ensures TakesAll(us, JitoEvents(w, us))
  {
    hide Possible, Run, UpdateEvents, AcceptedAll, KeysOf;
    if us != [] {
      var n := |us| - 1;
      var before := JitoEvents(w, us[..n]);
      JitoTakesAll(w, us[..n]);
      OneTaken(Run(w, before), us[n]);
      assert us == us[..n] + [us[n]];
      TakesMore(us[..n], [us[n]], before, UpdateEvents(Run(w, before), us[n]));
    }
  }

  lemma TakesMore(us: seq<Update>, vs: seq<Update>, es: seq<Event>, fs: seq<Event>)
    requires TakesAll(us, es) && TakesAll(vs, fs)
    ensures TakesAll(us + vs, es + fs)
  {
    forall u | u in us + vs && u.Bundled? && AcceptedAll(u.packets)
      ensures exists e :: e in es + fs && e.AdmitBundle? && e.bundle.keys == KeysOf(u.packets) && e.bundle.receivedAt == u.now
    {
      if u in us {
        var e :| e in es && e.AdmitBundle? && e.bundle.keys == KeysOf(u.packets) && e.bundle.receivedAt == u.now;
        assert e in es + fs;
      } else {
        var e :| e in fs && e.AdmitBundle? && e.bundle.keys == KeysOf(u.packets) && e.bundle.receivedAt == u.now;
        assert e in es + fs;
      }
    }
  }

  /** The intake of a poll that succeeds, in order, leaves nothing out: the slot's change and
      the tips, one event for each response, the validator's transactions, the expired
      bundles, and the block engine's packets and bundles. */
  lemma IntakeInOrder(w: World, input: Input, was: bool, expired: seq<Event>)
    returns (opening: seq<Event>, answers: seq<Event>, admitted: seq<Event>, engine: seq<Event>)
    requires Possible(w, IntakeEvents(w, input, was, expired))
    ensures IntakeEvents(w, input, was, expired) == opening + answers + admitted + expired + engine
    ensures OpensWith(w, input, was, opening)
    ensures |answers| == |input.responses| && forall i | 0 <= i < |answers| :: answers[i] == EventOf(input.responses[i])
    ensures AdmitsAll(input.arrivals, admitted)
    ensures TakesAll(input.updates, engine)
  {
    hide Possible, Run, OpensWith, AdmitsAll, TakesAll, RollEvents, JitoEvents;
    opening, answers := RollEvents(w, input.slot, input.leaderReady && !was, input.tips), Events(input.responses);
    RollEventsOpen(w, input, was);
    EventsAre(input.responses);
    var w1 := Run(w, opening + answers);
    admitted := TpuEvents(w1, input.arrivals, input.tpuLen, input.MaxArrivals());
    TpuAdmitsAll(w1, input);
    var sofar := opening + answers + admitted + expired;
    engine := JitoEvents(Run(w, sofar), input.updates);
    AppendIff(w, sofar, engine);
    JitoTakesAll(Run(w, sofar), input.updates);
  }

  lemma TpuAdmitsAll(w: World, input: Input)
    ensures AdmitsAll(input.arrivals, TpuEvents(w, input.arrivals, input.tpuLen, input.MaxArrivals()))
  {
    AdmissionsAll(input.arrivals);
  }

  /** The drops leave exactly the bundles that are not older than the expiry. */
  ghost predicate ExactlyExpired(w: World, input: Input, was: bool, expired: seq<Event>, expiry: nat) {
    var opening := OpeningEvents(w, input, was);
    && Possible(w, opening)
    && var sofar := opening + TpuEvents(Run(w, opening), input.arrivals, input.tpuLen, input.MaxArrivals()) + expired;
    && Possible(w, sofar)
    && Run(w, sofar).bundles == set b | b in Run(w, opening).bundles && SatSub(input.now, b.receivedAt) <= expiry
  }

  /** A response or the validator's transactions make the poll fail. */
  ghost predicate FailsEarly(w: World, input: Input, was: bool) {
    var opening := OpeningEvents(w, input, was);
    || !Possible(w, opening)
    || !Possible(w, opening + TpuEvents(Run(w, opening), input.arrivals, input.tpuLen, input.MaxArrivals()))
  }

  /** Which bundles were dropped: none when the poll failed before it came to them, and
      otherwise exactly those that are too old. */
  ghost predicate DroppedRightly(w: World, input: Input, was: bool, expired: seq<Event>, expiry: nat) {
    if FailsEarly(w, input, was) then expired == [] else ExactlyExpired(w, input, was, expired, expiry)
  }

  /** Whether the leader slot counts as seen after a slot check that found `was`. */
  function SeenLeader(input: Input, was: bool, slot: Slot): bool {
    if input.leaderReady && !was then true else was && input.slot == slot
  }

  /** The starts of a leader's poll, and its next recheck sweep. */
  function LeaderEvents(input: Input, sent: nat): seq<Event> {
    if input.leaderReady then Heads(sent) + [StartSweep] else []
  }

  lemma {:induction false} ResponsesAddNone(rs: seq<WorkerResponse>)
    ensures AddsOnly(Events(rs), {})
  {
    if rs != [] {
      ResponsesAddNone(rs[1..]);
    }
  }

  lemma TpuAdds(w: World, arrivals: seq<Arrival>, tpuLen: nat, maxCount: nat)
    ensures AddsOnly(TpuEvents(w, arrivals, tpuLen, maxCount), ArrivalKeys(arrivals))
  {
    AdmissionsAdd(arrivals);
  }

  lemma DropsAddNone(es: seq<Event>)
    requires forall e | e in es :: e.DropBundle?
    ensures AddsOnly(es, {})
  {
    forall i | 0 <= i < |es| ensures NewKeys(es[i]) == {} {
      assert es[i] in es;
    }
  }

  lemma TipsAreNew(txs: map<Key, Tx>, input: Input)
    requires FreshInput(txs, input.tips, input.arrivals, input.updates)
    ensures input.tips.Fresh(txs)
  {
  }

  lemma StillFreshArrivals(before: map<Key, Tx>, now: map<Key, Tx>, input: Input)
    requires FreshInput(before, input.tips, input.arrivals, input.updates)
    requires now.Keys <= before.Keys + {input.tips.key1, input.tips.key2}
    ensures FreshArrivals(input.arrivals, now)
  {
    forall a | a in input.arrivals ensures a.key !in now {
      assert a.key in ArrivalKeys(input.arrivals);
    }
  }

  lemma StillFreshUpdates(before: map<Key, Tx>, now: map<Key, Tx>, input: Input)
    requires FreshInput(before, input.tips, input.arrivals, input.updates)
    requires now.Keys <= before.Keys + {input.tips.key1, input.tips.key2} + ArrivalKeys(input.arrivals)
    ensures FreshUpdates(input.updates, now)
  {
    var us := input.updates;
    forall i | 0 <= i < |us| ensures us[i].Keys() !! now.Keys {
      assert us[i] in us;
      assert us[i].Keys() <= UpdateKeys(us);
      assert us[i].Keys() !! before.Keys;
    }
  }

  /** What a poll sends once its intake has left the state `w`: the checks, then, for a
      leader, the batches of the merge and a new recheck sweep. `last` is where the worker
      loop stopped. */
  ghost predicate Dispatched(w: World, end: World, input: Input, maxCheckBatches: nat, blockFillCutoff: nat,
                             checkBatches: seq<seq<PriorityId>>, sent: seq<Sent>, last: nat)
  {
    var n := BATCH_SIZE * input.CheckRoom(maxCheckBatches);
    var w1 := Drained(w, n);
    && Flat(checkBatches) == DrainedMetas(w, n)
    && |checkBatches| <= input.CheckRoom(maxCheckBatches)
    && (forall batch | batch in checkBatches :: 0 < |batch| <= BATCH_SIZE)
    && if input.leaderReady then Led(w1, end, input, blockFillCutoff, sent, last) else end == w1 && sent == []
  }

  ghost predicate Led(w: World, end: World, input: Input, blockFillCutoff: nat, sent: seq<Sent>, last: nat) {
    && Possible(w, Heads(|sent|))
    && var now := Run(w, Heads(|sent|));
    && Progress(w, now, sent, input.idle, last, BudgetLimit(input.slotProgress, blockFillCutoff), UsedUnits(input.remainingCostUnits))
    && StopsFor(w, now, sent, input.idle, last, BudgetLimit(input.slotProgress, blockFillCutoff), UsedUnits(input.remainingCostUnits))
    && end == now.(cursor := NextSweep(now))
  }

  lemma ProgressRuns(w: World, now: World, sent: seq<Sent>, idle: seq<bool>, end: nat, limit: nat, used: nat)
    requires Progress(w, now, sent, idle, end, limit, used)
    ensures Possible(w, Heads(|sent|)) && now == Run(w, Heads(|sent|))
  {
  }

  lemma SweepKeepsInv(w: World)
    requires Inv(w)
    ensures Inv(w.(cursor := NextSweep(w)))
  {
    StartSweepRuns(w);
    hide Inv;
    RunKeepsInv(w, [StartSweep]);
  }

  /** What becomes of the sweep's cursor after the checks: a leader's poll begins a new sweep
      at the greatest checked transaction unless one is under way. */
  ghost predicate SweepGoesOn(cursor: Option<PriorityId>, end: World, leaderReady: bool) {
    if cursor.Some? || !leaderReady then end.cursor == cursor
    else if end.cursor.None? then end.checked == {}
    else end.cursor.value in end.checked && forall x | x in end.checked :: AtMost(x, end.cursor.value)
  }

  /** The events behind what a poll sends. */
  ghost function DispatchEvents(w: World, input: Input, maxCheckBatches: nat, sent: nat): seq<Event> {
    DrainEvents(w, BATCH_SIZE * input.CheckRoom(maxCheckBatches)) + LeaderEvents(input, sent)
  }

  /** Whatever a poll sends, it is a run. */
  lemma DispatchIsRun(w: World, end: World, input: Input, maxCheckBatches: nat, blockFillCutoff: nat,
                      checkBatches: seq<seq<PriorityId>>, sent: seq<Sent>, last: nat)
    requires Dispatched(w, end, input, maxCheckBatches, blockFillCutoff, checkBatches, sent, last)
    ensures Possible(w, DispatchEvents(w, input, maxCheckBatches, |sent|))
    ensures Run(w, DispatchEvents(w, input, maxCheckBatches, |sent|)) == end
  {
    hide Progress, StopsFor, DrainedMetas, Drained, DrainEvents, Apply, Enabled;
    var n := BATCH_SIZE * input.CheckRoom(maxCheckBatches);
    var w1 := Drained(w, n);
    DrainIsRun(w, n);
    if input.leaderReady {
      StartSweepRuns(Run(w1, Heads(|sent|)));
      RunAppend(w1, Heads(|sent|), [StartSweep]);
    }
    RunAppend(w, DrainEvents(w, n), LeaderEvents(input, |sent|));
  }
}
