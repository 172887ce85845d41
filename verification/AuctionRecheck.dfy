/** The auction scheduler's recheck loop. On a skip it takes its cursor back instead of
    leaving it where it moved to. */
module AuctionRecheck {
  import opened Orders
  import opened Locks
  import opened Protocol
  import opened Checks
  import opened Theorems

  /** Where the loop is: done, with what it found and the cursor it leaves, or about to turn
      with a cursor. */
  datatype Loop = Done(found: Option<PriorityId>, next: Option<PriorityId>) | Going(cursor: PriorityId)

  predicate MayRecheck(checked: set<PriorityId>, executing: set<Key>, c: PriorityId) {
    c in checked && c.key !in executing
  }

  /** One turn: the cursor moves down, and back up if its transaction may not be rechecked. */
  ghost function Turn(checked: set<PriorityId>, executing: set<Key>, c: PriorityId): Loop {
    if MayRecheck(checked, executing, c) then Done(Some(c), LastBelow(checked, c)) else Going(c)
  }

  /** The loop after at most `n` turns. */
  ghost function Turns(checked: set<PriorityId>, executing: set<Key>, cursor: Option<PriorityId>, n: nat): Loop {
    if cursor.None? then Done(None, None)
    else if n == 0 then Going(cursor.value)
    else
      match Turn(checked, executing, cursor.value)
      case Done(found, next) => Done(found, next)
      case Going(c) => Turns(checked, executing, Some(c), n - 1)
  }

  /** The loop ends exactly when there is no cursor, or its transaction is still checked and
      not executing. */
  lemma LoopEndsIff(checked: set<PriorityId>, executing: set<Key>, cursor: Option<PriorityId>)
    ensures (exists n :: Turns(checked, executing, cursor, n).Done?)
       <==> cursor.None? || MayRecheck(checked, executing, cursor.value)
  {
    assert cursor.None? || MayRecheck(checked, executing, cursor.value) ==> Turns(checked, executing, cursor, 1).Done?;
    if cursor.Some? && !MayRecheck(checked, executing, cursor.value) {
      forall n: nat ensures Turns(checked, executing, cursor, n) == Going(cursor.value) {
        TurnsInPlace(checked, executing, cursor.value, n);
      }
    }
  }

  lemma {:induction false} TurnsInPlace(checked: set<PriorityId>, executing: set<Key>, c: PriorityId, n: nat)
    requires !MayRecheck(checked, executing, c)
    ensures Turns(checked, executing, Some(c), n) == Going(c)
  {
    if n > 0 {
      TurnsInPlace(checked, executing, c, n - 1);
    }
  }

  /** When it ends, it finds and leaves what the batch scheduler's loop does. */
  lemma EndsLikeTheBatchScheduler(w: World, n: nat)
    requires w.unchecked == {} && Turns(w.checked, w.executing, w.cursor, n).Done?
    ensures Turns(w.checked, w.executing, w.cursor, n) == Done(PopMeta(w), Popped(w).cursor)
  {
    if w.cursor.Some? {
      if MayRecheck(w.checked, w.executing, w.cursor.value) {
        CursorStep(w);
      } else {
        TurnsInPlace(w.checked, w.executing, w.cursor.value, n);
      }
    }
  }

  lemma OneExecutes(checked: set<PriorityId>, executing: set<Key>, m: PriorityId)
    requires m.key in executing
    ensures !MayRecheck(checked, executing, m)
  {
  }

  /** One transaction, whichever it is, passes its check, a sweep starts at it, and it is
      scheduled before the check queue has room for the recheck: from there the loop turns
      for ever. */
  lemma StuckIsReachable(cfg: Config, tx: Tx) returns (es: seq<Event>)
    requires cfg.uncheckedCapacity > 0 && cfg.checkedCapacity > 0 && Ordinary(tx)
    ensures Possible(Init(cfg), es)
    ensures var w := Run(Init(cfg), es);
      w.unchecked == {} && w.cursor.Some? && forall n :: !Turns(w.checked, w.executing, w.cursor, n).Done?
  {
    hide Ordinary, Apply, Enabled, Possible, Run, Turns;
    var m := MetaOf(0, tx);
    var e1, e3 := Admit(0, tx), CheckReply(m, CheckOk);
    OrdinaryFits(tx);
    FirstPasses(cfg, tx);
    var w3 := OnePassed(cfg, tx);
    var w4 := w3.(cursor := Some(m));
    SweepOnlyOne(cfg, tx);
    StartOnlyOne(w4, m);
    var w5 := Apply(w4, StartHead);
    LoopEndsIff(w5.checked, w5.executing, w5.cursor);
    es := [e1, SendCheck, e3, StartSweep, StartHead];
    FiveSteps(Init(cfg), e1, SendCheck, e3, StartSweep, StartHead);
  }

  /** The first transaction is checked, and nothing else is going on. */
  ghost function OnePassed(cfg: Config, tx: Tx): World {
    Init(cfg).(txs := map[0 := tx], checked := {MetaOf(0, tx)})
  }

  lemma SweepOnlyOne(cfg: Config, tx: Tx)
    ensures var w := OnePassed(cfg, tx); Enabled(w, StartSweep) && Apply(w, StartSweep) == w.(cursor := Some(MetaOf(0, tx)))
  {
    assert Last({MetaOf(0, tx)}) == MetaOf(0, tx);
  }

  lemma FirstPasses(cfg: Config, tx: Tx)
    requires cfg.uncheckedCapacity > 0 && cfg.checkedCapacity > 0 && Ordinary(tx)
    ensures var w := Init(cfg); var e1, e3 := Admit(0, tx), CheckReply(MetaOf(0, tx), CheckOk);
      && Enabled(w, e1) && Enabled(Apply(w, e1), SendCheck) && Enabled(Apply(Apply(w, e1), SendCheck), e3)
      && Apply(Apply(Apply(w, e1), SendCheck), e3) == OnePassed(cfg, tx)
  {
    hide First, DistinctAccounts, Writes;
    var m := MetaOf(0, tx);
    var w1 := Apply(Init(cfg), Admit(0, tx));
    assert w1.unchecked == {m} && Last({m}) == m;
    var w2 := Apply(w1, SendCheck);
    assert w2 == Init(cfg).(txs := map[0 := tx], checks := multiset{m});
  }
}
