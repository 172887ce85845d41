/** What one round of check scheduling sends: the unchecked transactions from the top,
    then rechecks from the cursor down. */
module Checks {
  import opened Orders
  import opened Protocol
  import opened Sweep

  const BATCH_SIZE: nat := 64

  /** The next transaction to check, if there is any. */
  ghost function PopMeta(w: World): Option<PriorityId> {
    if w.unchecked != {} then Some(Last(w.unchecked)) else NextRecheck(w)
  }

  ghost function PopEvents(w: World): seq<Event> {
    if w.unchecked != {} then [SendCheck] else if w.cursor.Some? then [SendRecheck] else []
  }

  ghost function Popped(w: World): World {
    if w.unchecked != {} then Apply(w, SendCheck)
    else if w.cursor.Some? then Apply(w, SendRecheck)
    else w
  }

  /** The state after popping until `n` transactions are out or none is left. */
  ghost function Drained(w: World, n: nat): World
    decreases n
  {
    if n == 0 then w
    else if PopMeta(w).None? then Popped(w)
    else Drained(Popped(w), n - 1)
  }

  ghost function DrainedMetas(w: World, n: nat): seq<PriorityId>
    decreases n
  {
    if n == 0 || PopMeta(w).None? then []
    else [PopMeta(w).value] + DrainedMetas(Popped(w), n - 1)
  }

  ghost function DrainEvents(w: World, n: nat): seq<Event>
    decreases n
  {
    if n == 0 then []
    else if PopMeta(w).None? then PopEvents(w)
    else PopEvents(w) + DrainEvents(Popped(w), n - 1)
  }

  predicate Exhausted(w: World) {
    w.unchecked == {} && w.cursor.None?
  }

  /** Fewer go out than may only when nothing is left to check. */
  lemma ExhaustedIfFewer(w: World, n: nat)
    ensures |DrainedMetas(w, n)| < n ==> Drained(w, n).unchecked == {} && Drained(w, n).cursor.None?
  {
    DrainedSplits(w, n, 0);
  }

  lemma NonePopped(w: World)
    requires PopMeta(w).None?
    ensures Exhausted(Popped(w))
  {
  }

  lemma ExhaustedStays(w: World, n: nat)
    requires Exhausted(w)
    ensures Drained(w, n) == w && DrainedMetas(w, n) == []
  {
  }

  lemma {:induction false} DrainedSplits(w: World, m: nat, n: nat)
    ensures Drained(w, m + n) == Drained(Drained(w, m), n)
    ensures DrainedMetas(w, m + n) == DrainedMetas(w, m) + DrainedMetas(Drained(w, m), n)
    ensures |DrainedMetas(w, m)| < m ==> Exhausted(Drained(w, m))
    decreases m
  {
    hide Apply, Enabled, NextRecheck;
    if m > 0 {
      if PopMeta(w).None? {
        NonePopped(w);
        ExhaustedStays(Popped(w), n);
      } else {
        DrainedSplits(Popped(w), m - 1, n);
      }
    }
  }

  lemma OnePop(w: World)
    ensures Possible(w, PopEvents(w)) && Run(w, PopEvents(w)) == Popped(w)
  {
    if PopEvents(w) != [] {
      var e := PopEvents(w)[0];
      assert Enabled(w, e) && Popped(w) == Apply(w, e);
      hide Apply, Enabled;
      assert PopEvents(w)[1..] == [];
      assert Possible(Apply(w, e), []) && Run(Apply(w, e), []) == Apply(w, e);
    }
  }

  /** A round of check scheduling is a run of check and recheck messages. */
  lemma {:induction false} DrainIsRun(w: World, n: nat)
    ensures Possible(w, DrainEvents(w, n)) && Run(w, DrainEvents(w, n)) == Drained(w, n)
    decreases n
  {
    hide Apply, Enabled, NextRecheck, Popped, PopMeta, PopEvents;
    if n > 0 {
      OnePop(w);
      if PopMeta(w).Some? {
        DrainIsRun(Popped(w), n - 1);
        RunAppend(w, PopEvents(w), DrainEvents(Popped(w), n - 1));
      }
    }
  }

  lemma PopStep(w: World)
    requires PopMeta(w).Some?
    ensures Popped(w).checked == w.checked
    ensures w.unchecked != {} ==> PopMeta(w).value == Last(w.unchecked) && Popped(w).unchecked == w.unchecked - {Last(w.unchecked)}
    ensures w.unchecked == {} ==> PopMeta(w).value in w.checked && Popped(w).unchecked == {}
  {
  }

  /** First checks come before rechecks, and go out from the top: whatever stays unchecked
      is below everything sent. */
  lemma {:induction false} FirstChecksFirst(w: World, n: nat)
    requires w.unchecked !! w.checked
    ensures forall i | 0 <= i < |DrainedMetas(w, n)| ::
      && (DrainedMetas(w, n)[i] in w.unchecked || DrainedMetas(w, n)[i] in w.checked)
      && (DrainedMetas(w, n)[i] in w.unchecked <==> i < |w.unchecked|)
    ensures forall i, j | 0 <= i < j < |DrainedMetas(w, n)| && j < |w.unchecked| ::
      Below(DrainedMetas(w, n)[j], DrainedMetas(w, n)[i])
    ensures Drained(w, n).unchecked <= w.unchecked
    ensures forall i, x | 0 <= i < |DrainedMetas(w, n)| && i < |w.unchecked| && x in Drained(w, n).unchecked ::
      Below(x, DrainedMetas(w, n)[i])
    decreases n
  {
    hide Enabled, Apply, NextRecheck;
    if n > 0 {
      if PopMeta(w).Some? {
        PopStep(w);
        hide PopMeta, Popped;
        FirstChecksFirst(Popped(w), n - 1);
      } else {
        NonePopped(w);
      }
    }
  }

  lemma DrainedStep(w: World, n: nat)
    requires n > 0
    ensures PopMeta(w).None? ==> Drained(w, n) == Popped(w) && DrainedMetas(w, n) == []
    ensures PopMeta(w).Some? ==>
      && Drained(w, n) == Drained(Popped(w), n - 1)
      && DrainedMetas(w, n) == [PopMeta(w).value] + DrainedMetas(Popped(w), n - 1)
  {
  }

  lemma DrainedNone(w: World)
    ensures Drained(w, 0) == w && DrainedMetas(w, 0) == []
  {
  }

  /** What one turn of the cursor loop finds out. */
  lemma CursorStep(w: World)
    requires w.cursor.Some? && w.unchecked == {}
    ensures var c := w.cursor.value; var w' := w.(cursor := LastBelow(w.checked, c));
      && (c in w.checked ==> NextRecheck(w) == Some(c) && Popped(w) == w'.(checks := w.checks + multiset{c}))
      && (c !in w.checked ==> NextRecheck(w') == NextRecheck(w) && Ahead(w') < Ahead(w))
      && (c !in w.checked && w'.cursor.None? ==> NextRecheck(w).None?)
  {
    var c := w.cursor.value;
    var here := AtOrBelow(w.checked, c);
    assert forall x :: x in here <==> x in w.checked && AtMost(x, c);
    if c in w.checked {
      assert IsLast(here, c) && Last(here) == c;
    } else {
      var next := LastBelow(w.checked, c);
      if next.Some? {
        var there := AtOrBelow(w.checked, next.value);
        assert there == here;
        LowerCursor(w.checked, c, next.value);
      } else {
        assert here == {};
      }
    }
  }
}
