/** The recheck sweep: what the cursor visits while everything else goes on around it. */
module Sweep {
  import opened Orders
  import opened Protocol
  import opened Sets

  /** The rechecks sent during a run, in order. */
  ghost function Rechecks(w: World, es: seq<Event>): seq<PriorityId>
    requires Possible(w, es)
    decreases |es|
  {
    if es == [] then []
    else if es[0].SendRecheck? && NextRecheck(w).Some? then [NextRecheck(w).value] + Rechecks(Apply(w, es[0]), es[1..])
    else Rechecks(Apply(w, es[0]), es[1..])
  }

  /** The run ends when the cursor first falls off the end. */
  ghost predicate OneSweep(w: World, es: seq<Event>)
    requires Possible(w, es)
    decreases |es|
  {
    if es == [] then w.cursor.None?
    else w.cursor.Some? && OneSweep(Apply(w, es[0]), es[1..])
  }

  ghost predicate CheckedThroughout(w: World, es: seq<Event>, m: PriorityId)
    requires Possible(w, es)
    decreases |es|
  {
    m in w.checked && (es != [] ==> CheckedThroughout(Apply(w, es[0]), es[1..], m))
  }

  ghost predicate Descending(ms: seq<PriorityId>) {
    forall i, j | 0 <= i < j < |ms| :: Below(ms[j], ms[i])
  }

  /** No other event moves a cursor that is set. */
  lemma OnlyRechecksMoveTheCursor(w: World, e: Event)
    requires Enabled(w, e) && w.cursor.Some? && !e.SendRecheck?
    ensures Apply(w, e).cursor == w.cursor
  {
    hide Free;
  }

  /** One recheck: the greatest checked transaction the cursor has not passed, which the
      cursor then passes. */
  lemma RecheckStep(w: World)
    requires Enabled(w, SendRecheck)
    ensures var w' := Apply(w, SendRecheck);
      && w'.checked == w.checked
      && (NextRecheck(w).Some? ==>
            var m := NextRecheck(w).value;
            && m in w.checked && AtMost(m, w.cursor.value)
            && (w'.cursor.Some? ==> Below(w'.cursor.value, m))
            && (forall x | x in w.checked && AtMost(x, w.cursor.value) && x != m ::
                  w'.cursor.Some? && AtMost(x, w'.cursor.value)))
      && (NextRecheck(w).None? ==>
            w'.cursor.None? && forall x | x in w.checked :: !AtMost(x, w.cursor.value))
  {
    assert forall x | x in w.checked && AtMost(x, w.cursor.value) :: x in AtOrBelow(w.checked, w.cursor.value);
  }

  /** The checked transactions below the cursor. */
  ghost function Under(s: set<PriorityId>, c: PriorityId): set<PriorityId> {
    set x | x in s && Below(x, c)
  }

  /** The measure of a sweep. */
  ghost function Ahead(w: World): nat {
    if w.cursor.None? then 0 else 1 + |Under(w.checked, w.cursor.value)|
  }

  lemma LowerCursor(s: set<PriorityId>, c: PriorityId, d: PriorityId)
    requires d in s && Below(d, c)
    ensures |Under(s, d)| < |Under(s, c)|
  {
    var rest := Under(s, c) - Under(s, d);
    assert Under(s, d) <= Under(s, c) && d in rest;
    assert Under(s, c) == Under(s, d) + rest;
  }

  /** Each recheck step leaves the sweep less to do. */
  lemma RecheckProgress(w: World)
    requires Enabled(w, SendRecheck)
    ensures Ahead(Apply(w, SendRecheck)) < Ahead(w)
  {
    var w' := Apply(w, SendRecheck);
    if w'.cursor.Some? {
      LowerCursor(w.checked, w.cursor.value, w'.cursor.value);
    }
  }

  /** A sweep that is under way until the last event of the run; it may end with it. */
  ghost predicate DuringSweep(w: World, es: seq<Event>)
    requires Possible(w, es)
    decreases |es|
  {
    es == [] || (w.cursor.Some? && DuringSweep(Apply(w, es[0]), es[1..]))
  }

  /** How many transactions the run puts among the checked ones, each counted every time. */
  ghost function Inserted(w: World, es: seq<Event>): nat
    requires Possible(w, es)
    decreases |es|
  {
    if es == [] then 0 else |Apply(w, es[0]).checked - w.checked| + Inserted(Apply(w, es[0]), es[1..])
  }

  /** How many times the run moves the cursor. */
  function CursorMoves(es: seq<Event>): nat {
    if es == [] then 0 else (if es[0].SendRecheck? then 1 else 0) + CursorMoves(es[1..])
  }

  lemma UnderGrows(s: set<PriorityId>, s': set<PriorityId>, c: PriorityId)
    ensures |Under(s', c)| <= |Under(s, c)| + |s' - s|
  {
    var added := Under(s', c) - Under(s, c);
    SubsetSize(added, s' - s);
    SubsetSize(Under(s', c), Under(s, c) + added);
  }

  /** Any other event adds to what is left at most what it inserts. */
  lemma OthersAddLittle(w: World, e: Event)
    requires Enabled(w, e) && w.cursor.Some? && !e.SendRecheck?
    ensures Ahead(Apply(w, e)) <= Ahead(w) + |Apply(w, e).checked - w.checked|
  {
    OnlyRechecksMoveTheCursor(w, e);
    hide Apply, Enabled;
    UnderGrows(w.checked, Apply(w, e).checked, w.cursor.value);
  }

  /** Over every run within a sweep, finished or not: the moves of the cursor and what is
      left to do then are no more than what was left at the start and what has been
      inserted since. So a sweep ends unless insertions keep it going. */
  lemma {:induction false} SweepIsBounded(w: World, es: seq<Event>)
    requires Possible(w, es) && DuringSweep(w, es)
    ensures CursorMoves(es) + Ahead(Run(w, es)) <= Ahead(w) + Inserted(w, es)
    ensures |Rechecks(w, es)| <= CursorMoves(es)
    decreases |es|
  {
    if es != [] {
      var w' := Apply(w, es[0]);
      SweepIsBounded(w', es[1..]);
      if es[0].SendRecheck? {
        RecheckProgress(w);
      } else {
        OthersAddLittle(w, es[0]);
      }
      hide Apply, Enabled, Ahead;
    }
  }

  /** A finished sweep is one of them: it takes at most one move for everything ahead of
      its start and everything inserted on the way. */
  lemma {:induction false} SweepEnds(w: World, es: seq<Event>)
    requires Possible(w, es) && OneSweep(w, es)
    ensures DuringSweep(w, es)
    ensures |Rechecks(w, es)| <= CursorMoves(es) <= Ahead(w) + Inserted(w, es)
    decreases |es|
  {
    OneSweepIsDuring(w, es);
    SweepIsBounded(w, es);
  }

  lemma {:induction false} OneSweepIsDuring(w: World, es: seq<Event>)
    requires Possible(w, es) && OneSweep(w, es)
    ensures DuringSweep(w, es)
    decreases |es|
  {
    hide Apply, Enabled;
    if es != [] {
      OneSweepIsDuring(Apply(w, es[0]), es[1..]);
    }
  }

  ghost predicate AllAtMost(ms: seq<PriorityId>, c: PriorityId) {
    forall i | 0 <= i < |ms| :: AtMost(ms[i], c)
  }

  lemma {:induction false} RechecksDescend(w: World, es: seq<Event>)
    requires Possible(w, es) && OneSweep(w, es)
    ensures Descending(Rechecks(w, es))
    ensures w.cursor.Some? ==> AllAtMost(Rechecks(w, es), w.cursor.value)
    ensures w.cursor.None? ==> Rechecks(w, es) == []
    decreases |es|
  {
    hide Apply, Enabled, NextRecheck;
    if es != [] {
      var w' := Apply(w, es[0]);
      RechecksDescend(w', es[1..]);
      if es[0].SendRecheck? {
        RecheckStep(w);
      } else {
        OnlyRechecksMoveTheCursor(w, es[0]);
      }
    }
  }

  lemma {:induction false} StayersAreRechecked(w: World, es: seq<Event>, m: PriorityId)
    requires Possible(w, es) && OneSweep(w, es) && w.cursor.Some?
    requires CheckedThroughout(w, es, m) && AtMost(m, w.cursor.value)
    ensures m in Rechecks(w, es)
    decreases |es|
  {
    var w' := Apply(w, es[0]);
    if es[0].SendRecheck? {
      RecheckStep(w);
    } else {
      OnlyRechecksMoveTheCursor(w, es[0]);
    }
    hide Apply, Enabled;
    if !(es[0].SendRecheck? && NextRecheck(w) == Some(m)) {
      StayersAreRechecked(w', es[1..], m);
    }
  }

  /** Whatever is inserted, evicted or scheduled between two rechecks, the cursor's own
      transaction included: a sweep rechecks in strictly descending order, hence nothing
      twice, and misses no transaction at or below its start that stays checked. */
  lemma SweepIsCompleteAndOrdered(w: World, es: seq<Event>)
    requires Possible(w, es) && OneSweep(w, es) && w.cursor.Some?
    ensures Descending(Rechecks(w, es))
    ensures forall m | CheckedThroughout(w, es, m) && AtMost(m, w.cursor.value) ::
      exists i :: 0 <= i < |Rechecks(w, es)| && Rechecks(w, es)[i] == m
               && forall j | 0 <= j < |Rechecks(w, es)| && j != i :: Rechecks(w, es)[j] != m
  {
    RechecksDescend(w, es);
    forall m | CheckedThroughout(w, es, m) && AtMost(m, w.cursor.value)
      ensures exists i :: 0 <= i < |Rechecks(w, es)| && Rechecks(w, es)[i] == m
                       && forall j | 0 <= j < |Rechecks(w, es)| && j != i :: Rechecks(w, es)[j] != m
    {
      StayersAreRechecked(w, es, m);
      var ms := Rechecks(w, es);
      var i :| 0 <= i < |ms| && ms[i] == m;
      assert forall j | 0 <= j < |ms| && j != i :: ms[j] != m;
    }
  }

  /** The transaction is rechecked exactly once. */
  ghost predicate RecheckedOnce(w: World, es: seq<Event>, m: PriorityId)
    requires Possible(w, es)
  {
    exists i :: 0 <= i < |Rechecks(w, es)| && Rechecks(w, es)[i] == m
                && forall j | 0 <= j < |Rechecks(w, es)| && j != i :: Rechecks(w, es)[j] != m
  }

  /** A sweep that a slot change or the end of a leader's poll begins starts at the greatest
      checked transaction; once finished, it has rechecked everything that stays checked,
      exactly once, from the top down. */
  lemma WholeSweep(w: World, e: Event, es: seq<Event>)
    requires Enabled(w, e) && (e.Roll? || e.StartSweep?) && w.cursor.None?
    requires Possible(Apply(w, e), es) && OneSweep(Apply(w, e), es)
    ensures var w' := Apply(w, e);
      && (w'.cursor.None? <==> w'.checked == {})
      && (w'.cursor.Some? ==> w'.cursor.value in w'.checked && forall x | x in w'.checked :: AtMost(x, w'.cursor.value))
      && Descending(Rechecks(w', es))
      && forall m | CheckedThroughout(w', es, m) :: RecheckedOnce(w', es, m)
  {
    SweepBegins(w, e);
    hide Apply, Enabled, Rechecks, OneSweep;
    var w' := Apply(w, e);
    if w'.cursor.Some? {
      SweepIsCompleteAndOrdered(w', es);
      forall m | CheckedThroughout(w', es, m) ensures RecheckedOnce(w', es, m) {
        assert m in w'.checked && AtMost(m, w'.cursor.value);
      }
    } else {
      NothingToRecheck(w', es);
    }
  }

  /** With two checked transactions and nothing unchecked, a sweep rechecks the higher one,
      then the lower one, and ends. */
  lemma SweepOfTwo(w: World, high: PriorityId, low: PriorityId)
    requires w.cursor.None? && w.unchecked == {} && w.checked == {high, low} && Below(low, high)
    ensures Enabled(w, StartSweep)
    ensures var w' := Apply(w, StartSweep); var es := [SendRecheck, SendRecheck];
      && Possible(w', es) && OneSweep(w', es) && Rechecks(w', es) == [high, low]
      && CheckedThroughout(w', es, high) && CheckedThroughout(w', es, low)
  {
    TwoInOrder(high, low);
    var w1 := w.(cursor := Some(high));
    var w2 := w1.(cursor := Some(low), checks := w.checks + multiset{high});
    assert Apply(w, StartSweep) == w1;
    assert Enabled(w1, SendRecheck) && NextRecheck(w1) == Some(high) && Apply(w1, SendRecheck) == w2;
    assert Enabled(w2, SendRecheck) && NextRecheck(w2) == Some(low) && Apply(w2, SendRecheck).cursor.None?;
    var w3 := Apply(w2, SendRecheck);
    hide Apply, Enabled, NextRecheck;
    assert Possible(w3, []) && OneSweep(w3, []) && Rechecks(w3, []) == [];
    assert forall m | m in w.checked :: CheckedThroughout(w3, [], m);
    assert [SendRecheck, SendRecheck][1..] == [SendRecheck] && [SendRecheck][1..] == [];
    assert Possible(w2, [SendRecheck]) && OneSweep(w2, [SendRecheck]) && Rechecks(w2, [SendRecheck]) == [low];
    assert forall m | m in w.checked :: CheckedThroughout(w2, [SendRecheck], m);
  }

  lemma TwoInOrder(high: PriorityId, low: PriorityId)
    requires Below(low, high)
    ensures var s := {high, low};
      && Last(s) == high && AtOrBelow(s, high) == s && LastBelow(s, high) == Some(low)
      && AtOrBelow(s, low) == {low} && Last({low}) == low && LastBelow(s, low) == None
  {
    assert low in {high, low} && high in {high, low};
  }

  lemma SweepBegins(w: World, e: Event)
    requires Enabled(w, e) && (e.Roll? || e.StartSweep?) && w.cursor.None?
    ensures SweepStart(Apply(w, e).checked, Apply(w, e).cursor)
  {
    hide Free;
  }

  lemma NothingToRecheck(w: World, es: seq<Event>)
    requires Possible(w, es) && OneSweep(w, es) && w.cursor.None?
    ensures es == [] && Rechecks(w, es) == []
  {
  }
}
