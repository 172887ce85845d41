/** Cutting a recorded stream of transactions into leader windows, slots and ticks. */
module Replay {
  import opened Arithmetic
  import opened Sequences

  /** `parses` says whether its bytes make a transaction. */
  datatype Entry = Entry(timestamp: nat, signature: nat, parses: bool)

  datatype Window = Window(duration: nat, entries: seq<Entry>)

  const GAP_NS: nat := 5_000_000_000
  const SLOT_NS: nat := 400_000_000
  const TICK_NS: nat := 6_250_000
  const TICKS_PER_SLOT: nat := 64

  predicate Sorted(es: seq<Entry>) {
    forall i, j | 0 <= i < j < |es| :: es[i].timestamp <= es[j].timestamp
  }

  // ---- Maximal runs ----

  /** When an entry stays with the one before it: less than a gap later, or in the same
      slot counted from a base time. */
  datatype Rule = WithinGap | SameSlot(base: nat) {
    predicate Stays(before: Entry, e: Entry) {
      match this
      case WithinGap => e.timestamp < before.timestamp || e.timestamp - before.timestamp < GAP_NS
      case SameSlot(base) => SlotOf(base, before) == SlotOf(base, e)
    }
  }

  function SlotOf(base: nat, e: Entry): nat {
    if e.timestamp < base then 0 else (e.timestamp - base) / SLOT_NS
  }

  function LastOf(es: seq<Entry>): Entry
    requires es != []
  {
    es[|es| - 1]
  }

  /** The slot of 400 ms an entry is in, counted from the base. */
  lemma SlotIs(base: nat, e: Entry)
    requires base <= e.timestamp
    ensures SlotOf(base, e) * 400_000_000 <= e.timestamp - base < (SlotOf(base, e) + 1) * 400_000_000
  {
  }

  /** Each part is a run. */
  ghost predicate Inside(r: Rule, parts: seq<seq<Entry>>) {
    forall p, i | 0 <= p < |parts| && 0 <= i < |parts[p]| - 1 :: r.Stays(parts[p][i], parts[p][i + 1])
  }

  /** No part is empty, and none goes on in the next one. */
  ghost predicate Across(r: Rule, parts: seq<seq<Entry>>) {
    && (forall p | 0 <= p < |parts| :: parts[p] != [])
    && (forall p | 0 <= p < |parts| - 1 :: !r.Stays(LastOf(parts[p]), parts[p + 1][0]))
  }

  /** The parts make up the entries, in order; each part is a run, and none could be
      longer. */
  ghost predicate MaximalRuns(r: Rule, es: seq<Entry>, parts: seq<seq<Entry>>) {
    Flat(parts) == es && Inside(r, parts) && Across(r, parts)
  }

  lemma RunGrows(r: Rule, es: seq<Entry>, parts: seq<seq<Entry>>, run: seq<Entry>, e: Entry)
    requires MaximalRuns(r, es, parts + [run]) && r.Stays(LastOf(run), e)
    ensures MaximalRuns(r, es + [e], parts + [run + [e]])
  {
    FlatSnoc(parts, run);
    FlatSnoc(parts, run + [e]);
    assert (parts + [run])[|parts|] == run;
    hide Flat, Rule.Stays;
    RunGrowsInside(r, parts, run, e);
    RunGrowsAcross(r, parts, run, e);
  }

  lemma RunGrowsInside(r: Rule, parts: seq<seq<Entry>>, run: seq<Entry>, e: Entry)
    requires Inside(r, parts + [run]) && run != [] && r.Stays(LastOf(run), e)
    ensures Inside(r, parts + [run + [e]])
  {
    hide Rule.Stays;
    var n, before, after := |parts|, parts + [run], parts + [run + [e]];
    forall p, i | 0 <= p < |after| && 0 <= i < |after[p]| - 1 ensures r.Stays(after[p][i], after[p][i + 1]) {
      if p < n || i < |run| - 1 {
        assert r.Stays(before[p][i], before[p][i + 1]);
      }
    }
  }

  lemma RunGrowsAcross(r: Rule, parts: seq<seq<Entry>>, run: seq<Entry>, e: Entry)
    requires Across(r, parts + [run])
    ensures Across(r, parts + [run + [e]])
  {
    hide Rule.Stays;
    var before, after := parts + [run], parts + [run + [e]];
    assert before[|parts|] == run && after[|parts|] == run + [e];
    forall p | 0 <= p < |after| ensures after[p] != [] {
      assert before[p] != [];
    }
    forall p | 0 <= p < |after| - 1 ensures !r.Stays(LastOf(after[p]), after[p + 1][0]) {
      assert !r.Stays(LastOf(before[p]), before[p + 1][0]);
      assert after[p + 1][0] == before[p + 1][0];
    }
  }

  lemma RunEnds(r: Rule, es: seq<Entry>, parts: seq<seq<Entry>>, run: seq<Entry>, e: Entry)
    requires MaximalRuns(r, es, parts + [run]) && !r.Stays(LastOf(run), e)
    ensures MaximalRuns(r, es + [e], parts + [run] + [[e]])
  {
    FlatSnoc(parts + [run], [e]);
  }

  lemma FirstRun(r: Rule, e: Entry)
    ensures MaximalRuns(r, [e], [[e]])
  {
    FlatSnoc([], [e]);
    assert [] + [[e]] == [[e]];
  }

  /** The last part starts where an entry does not stay with the one before. */
  lemma LastRunStarts(r: Rule, es: seq<Entry>, ps: seq<seq<Entry>>)
    requires MaximalRuns(r, es, ps) && ps != []
    ensures |ps[|ps| - 1]| <= |es|
    ensures var cut := |es| - |ps[|ps| - 1]|; cut > 0 ==> !r.Stays(es[cut - 1], es[cut])
  {
    var m := |ps| - 1;
    var cut := |es| - |ps[m]|;
    assert es == Flat(ps[..m]) + ps[m];
    if cut > 0 {
      assert m > 0;
      assert Flat(ps[..m]) == Flat(ps[..m][..m - 1]) + ps[m - 1];
      assert es[cut - 1] == LastOf(ps[m - 1]) && es[cut] == ps[m - 1 + 1][0];
    }
  }

  /** Inside the last part every entry stays with the one before. */
  lemma LastRunStays(r: Rule, es: seq<Entry>, ps: seq<seq<Entry>>)
    requires MaximalRuns(r, es, ps) && ps != []
    ensures 0 < |ps[|ps| - 1]| <= |es|
    ensures forall k | |es| - |ps[|ps| - 1]| < k < |es| :: r.Stays(es[k - 1], es[k])
  {
    var m := |ps| - 1;
    assert es == Flat(ps[..m]) + ps[m];
    forall k | |es| - |ps[m]| < k < |es| ensures r.Stays(es[k - 1], es[k]) {
      var i := k - 1 - |Flat(ps[..m])|;
      assert es[k - 1] == ps[m][i] && es[k] == ps[m][i + 1];
    }
  }

  lemma LastRunIsNoLonger(r: Rule, es: seq<Entry>, ps: seq<seq<Entry>>, qs: seq<seq<Entry>>)
    requires MaximalRuns(r, es, ps) && MaximalRuns(r, es, qs) && ps != [] && qs != []
    ensures |qs[|qs| - 1]| <= |ps[|ps| - 1]|
  {
    hide MaximalRuns;
    LastRunStarts(r, es, ps);
    LastRunStays(r, es, ps);
    LastRunStays(r, es, qs);
  }

  lemma NoPartsNoEntries(r: Rule, es: seq<Entry>, ps: seq<seq<Entry>>)
    requires MaximalRuns(r, es, ps)
    ensures ps == [] <==> es == []
  {
  }

  lemma WithoutLastRun(r: Rule, es: seq<Entry>, ps: seq<seq<Entry>>)
    requires MaximalRuns(r, es, ps) && ps != []
    ensures var m := |ps| - 1;
      && |ps[m]| <= |es| && ps[m] == es[|es| - |ps[m]|..]
      && MaximalRuns(r, es[..|es| - |ps[m]|], ps[..m])
  {
    var m := |ps| - 1;
    assert es == Flat(ps[..m]) + ps[m];
    assert Flat(ps[..m]) == es[..|es| - |ps[m]|];
  }

  /** There is one way only to cut entries into maximal runs. */
  lemma {:induction false} RunsAreUnique(r: Rule, es: seq<Entry>, ps: seq<seq<Entry>>, qs: seq<seq<Entry>>)
    requires MaximalRuns(r, es, ps) && MaximalRuns(r, es, qs)
    ensures ps == qs
    decreases |ps|
  {
    NoPartsNoEntries(r, es, ps);
    NoPartsNoEntries(r, es, qs);
    hide MaximalRuns;
    if ps != [] {
      LastRunIsNoLonger(r, es, ps, qs);
      LastRunIsNoLonger(r, es, qs, ps);
      WithoutLastRun(r, es, ps);
      WithoutLastRun(r, es, qs);
      var m, n := |ps| - 1, |qs| - 1;
      RunsAreUnique(r, es[..|es| - |ps[m]|], ps[..m], qs[..n]);
      assert ps == ps[..m] + [ps[m]] && qs == qs[..n] + [qs[n]];
    }
  }

  // ---- Windows and slots ----

  function Parts(ws: seq<Window>): seq<seq<Entry>> {
    seq(|ws|, i requires 0 <= i < |ws| => ws[i].entries)
  }

  lemma PartsSnoc(ws: seq<Window>, w: Window)
    ensures Parts(ws + [w]) == Parts(ws) + [w.entries]
  {
  }

  lemma {:induction false} PartOfFlat(parts: seq<seq<Entry>>, p: nat) returns (from: nat)
    requires p < |parts|
    ensures from + |parts[p]| <= |Flat(parts)| && Flat(parts)[from..from + |parts[p]|] == parts[p]
  {
    var n := |parts| - 1;
    if p == n {
      from := |Flat(parts[..n])|;
    } else {
      from := PartOfFlat(parts[..n], p);
      assert Flat(parts)[from..from + |parts[p]|] == Flat(parts[..n])[from..from + |parts[p]|];
    }
  }

  lemma PartsAreSorted(es: seq<Entry>, parts: seq<seq<Entry>>)
    requires Sorted(es) && Flat(parts) == es
    ensures forall p | 0 <= p < |parts| :: Sorted(parts[p])
  {
    forall p | 0 <= p < |parts| ensures Sorted(parts[p]) {
      var from := PartOfFlat(parts, p);
      assert forall i | 0 <= i < |parts[p]| :: parts[p][i] == es[from..from + |parts[p]|][i] == es[from + i];
    }
  }

  /** How long a window lasts: from its first entry to its last. */
  function Span(es: seq<Entry>): nat
    requires es != [] && Sorted(es)
  {
    LastOf(es).timestamp - es[0].timestamp
  }

  lemma CurrentEndsHere(es: seq<Entry>, parts: seq<seq<Entry>>, current: seq<Entry>)
    requires Flat(parts + [current]) == es && current != []
    ensures es != [] && LastOf(current) == LastOf(es)
  {
    FlatSnoc(parts, current);
  }

  /** One more entry: behind the current run, or on its own. */
  lemma NextEntry(r: Rule, es: seq<Entry>, i: nat, parts: seq<seq<Entry>>, current: seq<Entry>)
    requires 0 < i < |es| && current != [] && MaximalRuns(r, es[..i], parts + [current])
    ensures LastOf(current) == es[i - 1]
    ensures MaximalRuns(r, es[..i + 1], if r.Stays(es[i - 1], es[i]) then parts + [current + [es[i]]] else parts + [current] + [[es[i]]])
  {
    CurrentEndsHere(es[..i], parts, current);
    assert es[..i + 1] == es[..i] + [es[i]];
    if r.Stays(es[i - 1], es[i]) {
      RunGrows(r, es[..i], parts, current, es[i]);
    } else {
      RunEnds(r, es[..i], parts, current, es[i]);
    }
  }

  /** A window closed now: it lasts from its first entry to its last. */
  lemma ClosedWindow(es: seq<Entry>, parts: seq<seq<Entry>>, current: seq<Entry>)
    requires Sorted(es) && Flat(parts + [current]) == es && current != []
    ensures Sorted(current) && current[0].timestamp <= LastOf(current).timestamp
  {
    PartsAreSorted(es, parts + [current]);
    assert (parts + [current])[|parts|] == current;
  }

  lemma RunsAreFlat(r: Rule, es: seq<Entry>, parts: seq<seq<Entry>>)
    requires MaximalRuns(r, es, parts)
    ensures Flat(parts) == es
  {
  }

  /** Each window is a sorted run that lasts from its first entry to its last. */
  ghost predicate Proper(w: Window) {
    w.entries != [] && Sorted(w.entries) && w.duration == Span(w.entries)
  }

  method CloseWindow(current: seq<Entry>, ghost es: seq<Entry>, ghost parts: seq<seq<Entry>>) returns (w: Window)
    requires Sorted(es) && MaximalRuns(WithinGap, es, parts + [current]) && current != []
    ensures w.entries == current && Proper(w)
  {
    RunsAreFlat(WithinGap, es, parts + [current]);
    ClosedWindow(es, parts, current);
    w := Window(LastOf(current).timestamp - current[0].timestamp, current);
  }

  lemma SortedPrefix(es: seq<Entry>, i: nat)
    requires Sorted(es) && i <= |es|
    ensures Sorted(es[..i])
  {
  }

  /** Neighbours in a window are less than five seconds apart, and windows five seconds or
      more; each lasts from its first entry to its last. */
  ghost predicate CutAtGaps(entries: seq<Entry>, windows: seq<Window>) {
    && Flat(Parts(windows)) == entries
    && (forall w | 0 <= w < |windows| ::
          && windows[w].entries != []
          && windows[w].duration + windows[w].entries[0].timestamp == windows[w].entries[|windows[w].entries| - 1].timestamp)
    && (forall w, i, j | 0 <= w < |windows| && 0 <= i && j == i + 1 < |windows[w].entries| ::
          windows[w].entries[j].timestamp < windows[w].entries[i].timestamp + 5_000_000_000)
    && (forall v, w | 0 <= v && w == v + 1 < |windows| ::
          windows[w].entries[0].timestamp >= windows[v].entries[|windows[v].entries| - 1].timestamp + 5_000_000_000)
  }

  lemma WindowsAreCut(entries: seq<Entry>, windows: seq<Window>)
    requires MaximalRuns(WithinGap, entries, Parts(windows)) && forall w | 0 <= w < |windows| :: Proper(windows[w])
    ensures CutAtGaps(entries, windows)
  {
    var parts := Parts(windows);
    forall w, i, j | 0 <= w < |windows| && 0 <= i && j == i + 1 < |windows[w].entries|
      ensures windows[w].entries[j].timestamp < windows[w].entries[i].timestamp + 5_000_000_000
    {
      assert WithinGap.Stays(parts[w][i], parts[w][i + 1]);
    }
    forall v, w | 0 <= v && w == v + 1 < |windows|
      ensures windows[w].entries[0].timestamp >= windows[v].entries[|windows[v].entries| - 1].timestamp + 5_000_000_000
    {
      assert !WithinGap.Stays(LastOf(parts[v]), parts[v + 1][0]);
    }
  }

  /** Splits the entries wherever two in a row are a gap or more apart. */
  method SegmentIntoWindows(entries: seq<Entry>) returns (windows: seq<Window>)
    requires Sorted(entries)
    ensures MaximalRuns(WithinGap, entries, Parts(windows))
    ensures forall w | 0 <= w < |windows| :: Proper(windows[w])
    ensures CutAtGaps(entries, windows)
  {
    hide CutAtGaps;
    if entries == [] {
      WindowsAreCut([], []);
      return [];
    }
    windows := [];
    var current := [entries[0]];
    var i := 1;
    FirstRun(WithinGap, entries[0]);
    assert Parts([]) + [current] == [current] && entries[..1] == current;
    hide MaximalRuns, Proper, Sorted;
    while i < |entries|
      invariant 1 <= i <= |entries| && current != []
      invariant MaximalRuns(WithinGap, entries[..i], Parts(windows) + [current])
      invariant forall w | 0 <= w < |windows| :: Proper(windows[w])
    {
      windows, current := TakeEntry(entries, i, windows, current);
      i := i + 1;
    }
    assert entries[..i] == entries;
    var closed := CloseWindow(current, entries, Parts(windows));
    PartsSnoc(windows, closed);
    windows := windows + [closed];
    WindowsAreCut(entries, windows);
  }

  /** Entry `i` joins the current window, or closes it and opens the next one. */
  method TakeEntry(entries: seq<Entry>, i: nat, windows: seq<Window>, current: seq<Entry>)
    returns (windows': seq<Window>, current': seq<Entry>)
    requires Sorted(entries) && 0 < i < |entries| && current != []
    requires MaximalRuns(WithinGap, entries[..i], Parts(windows) + [current])
    requires forall w | 0 <= w < |windows| :: Proper(windows[w])
    ensures current' != [] && MaximalRuns(WithinGap, entries[..i + 1], Parts(windows') + [current'])
    ensures forall w | 0 <= w < |windows'| :: Proper(windows'[w])
  {
    hide MaximalRuns, Proper, Sorted;
    var entry := entries[i];
    NextEntry(WithinGap, entries, i, Parts(windows), current);
    windows', current' := windows, current;
    var prevTs := current[|current| - 1].timestamp;
    if entry.timestamp >= prevTs && entry.timestamp - prevTs >= GAP_NS {
      SortedPrefix(entries, i);
      var closed := CloseWindow(current, entries[..i], Parts(windows));
      PartsSnoc(windows, closed);
      windows' := windows + [closed];
      current' := [];
      assert [] + [entry] == [entry];
    }
    current' := current' + [entry];
  }

  /** How long the last slot of a window lasts. */
  function LastDuration(duration: nat, slotIdx: nat): (d: nat)
    ensures d > 0
  {
    if duration > slotIdx * SLOT_NS then duration - slotIdx * SLOT_NS else SLOT_NS
  }

  lemma LastSlotIsShort(es: seq<Entry>)
    requires es != [] && Sorted(es)
    ensures LastDuration(Span(es), SlotOf(es[0].timestamp, LastOf(es))) <= SLOT_NS
  {
  }

  /** Splits a window into its slots. All but the last one last a whole slot; the last one
      as long as the window does, or a whole slot if that is nothing. */
  method SegmentWindowIntoSlots(window: Window) returns (slots: seq<Window>)
    requires Sorted(window.entries)
    ensures window.entries == [] ==> slots == []
    ensures window.entries != [] ==>
      && slots != [] && MaximalRuns(SameSlot(window.entries[0].timestamp), window.entries, Parts(slots))
      && (forall s | 0 <= s < |slots| - 1 :: slots[s].duration == SLOT_NS)
      && slots[|slots| - 1].duration == LastDuration(window.duration, SlotOf(window.entries[0].timestamp, LastOf(window.entries)))
    ensures window.entries != [] ==>
      && (forall s | 0 <= s < |slots| - 1 :: slots[s].duration == 400_000_000)
      && var before := SlotOf(window.entries[0].timestamp, LastOf(window.entries)) * 400_000_000;
      && if window.duration > before then before + slots[|slots| - 1].duration == window.duration
         else slots[|slots| - 1].duration == 400_000_000
  {
    hide MaximalRuns;
    if window.entries == [] {
      return [];
    }
    var entries := window.entries;
    var baseTs := entries[0].timestamp;
    ghost var rule := SameSlot(baseTs);
    slots := [];
    var current: seq<Entry> := [];
    var currentSlotIdx := 0;
    var i := 0;
    while i < |entries|
      invariant 0 <= i <= |entries|
      invariant i == 0 ==> current == [] && slots == [] && currentSlotIdx == 0
      invariant i > 0 ==> current != [] && MaximalRuns(rule, entries[..i], Parts(slots) + [current])
      invariant i > 0 ==> currentSlotIdx == SlotOf(baseTs, entries[i - 1])
      invariant forall s | 0 <= s < |slots| :: slots[s].duration == SLOT_NS
    {
      var entry := entries[i];
      if i > 0 {
        NextEntry(rule, entries, i, Parts(slots), current);
        PartsSnoc(slots, Window(SLOT_NS, current));
      } else {
        FirstRun(rule, entry);
        assert entries[..1] == [entry] && Parts(slots) + [[entry]] == [[entry]];
      }
      var offset := entry.timestamp - baseTs;
      var slotIdx := offset / SLOT_NS;
      if slotIdx != currentSlotIdx {
        if current != [] {
          slots := slots + [Window(SLOT_NS, current)];
          current := [];
        }
        currentSlotIdx := slotIdx;
      }
      current := current + [entry];
      i := i + 1;
      assert i == 1 || !rule.Stays(entries[i - 2], entry) ==> current == [entry];
      assert i == 1 ==> Parts(slots) + [current] == [[entry]];
    }
    assert entries[..i] == entries;
    var last := Window(LastDuration(window.duration, currentSlotIdx), current);
    PartsSnoc(slots, last);
    slots := slots + [last];
  }

  /** The slots of a window are sorted, and none lasts longer than a slot. */
  lemma SlotsAreProper(window: Window, slots: seq<Window>, s: nat)
    requires window.entries != [] && Sorted(window.entries) && window.duration == Span(window.entries)
    requires MaximalRuns(SameSlot(window.entries[0].timestamp), window.entries, Parts(slots)) && s < |slots|
    requires forall s | 0 <= s < |slots| - 1 :: slots[s].duration == SLOT_NS
    requires slots[|slots| - 1].duration == LastDuration(window.duration, SlotOf(window.entries[0].timestamp, LastOf(window.entries)))
    ensures slots[s].entries != [] && Sorted(slots[s].entries) && 0 < slots[s].duration <= SLOT_NS
  {
    assert Parts(slots)[s] == slots[s].entries;
    PartsAreSorted(window.entries, Parts(slots));
    hide MaximalRuns;
    LastSlotIsShort(window.entries);
  }

  lemma {:induction false} OneSlotEach(base: nat, es: seq<Entry>, parts: seq<seq<Entry>>, p: nat, i: nat)
    requires MaximalRuns(SameSlot(base), es, parts) && p < |parts| && i < |parts[p]|
    ensures SlotOf(base, parts[p][i]) == SlotOf(base, parts[p][0])
    decreases i
  {
    if i > 0 {
      OneSlotEach(base, es, parts, p, i - 1);
      assert SameSlot(base).Stays(parts[p][i - 1], parts[p][i - 1 + 1]);
    }
  }

  /** Of sorted entries, each part is one slot, and slots go up from part to part: no slot
      comes twice. */
  lemma SlotsGoUp(base: nat, es: seq<Entry>, parts: seq<seq<Entry>>, p: nat, q: nat)
    requires MaximalRuns(SameSlot(base), es, parts) && Sorted(es) && q == p + 1 < |parts|
    ensures forall i, j | 0 <= i < |parts[p]| && 0 <= j < |parts[q]| :: SlotOf(base, parts[p][i]) < SlotOf(base, parts[q][j])
  {
    forall i, j | 0 <= i < |parts[p]| && 0 <= j < |parts[q]|
      ensures SlotOf(base, parts[p][i]) < SlotOf(base, parts[q][j])
    {
      OneSlotEach(base, es, parts, p, i);
      OneSlotEach(base, es, parts, p, |parts[p]| - 1);
      OneSlotEach(base, es, parts, q, j);
      NeighboursAreOrdered(es, parts, p);
      SlotIsMonotone(base, LastOf(parts[p]), parts[q][0]);
    }
  }

  lemma NeighboursAreOrdered(es: seq<Entry>, parts: seq<seq<Entry>>, p: nat)
    requires Flat(parts) == es && Sorted(es) && p + 1 < |parts| && parts[p] != [] && parts[p + 1] != []
    ensures LastOf(parts[p]).timestamp <= parts[p + 1][0].timestamp
  {
    var upTo := parts[..p + 2];
    assert Flat(upTo) == Flat(upTo[..p + 1]) + parts[p + 1];
    assert upTo[..p + 1][..p] == parts[..p];
    assert Flat(upTo[..p + 1]) == Flat(parts[..p]) + parts[p];
    PrefixIsPrefix(parts, p + 2);
    var cut := |Flat(upTo[..p + 1])|;
    assert es[cut - 1] == Flat(upTo)[cut - 1] && es[cut] == Flat(upTo)[cut];
  }

  lemma {:induction false} PrefixIsPrefix(parts: seq<seq<Entry>>, n: nat)
    requires n <= |parts|
    ensures Flat(parts[..n]) <= Flat(parts)
    decreases |parts|
  {
    if n == |parts| {
      assert parts[..n] == parts;
    } else {
      PrefixIsPrefix(parts[..|parts| - 1], n);
      assert parts[..|parts| - 1][..n] == parts[..n];
    }
  }

  lemma SlotIsMonotone(base: nat, e: Entry, f: Entry)
    requires e.timestamp <= f.timestamp
    ensures SlotOf(base, e) <= SlotOf(base, f)
  {
    if e.timestamp >= base {
      QuotientGrows(e.timestamp - base, SLOT_NS, f.timestamp - base, SLOT_NS);
    }
  }

  // ---- Ticks ----

  function TotalTicks(duration: nat): nat {
    if duration / TICK_NS > 1 then duration / TICK_NS else 1
  }

  /** The tick an entry arrives in; whatever is late arrives in the last one. */
  function TickOf(w: Window, e: Entry): nat
    requires w.entries != [] && w.entries[0].timestamp <= e.timestamp
  {
    var tick := (e.timestamp - w.entries[0].timestamp) / TICK_NS;
    if tick < TotalTicks(w.duration) - 1 then tick else TotalTicks(w.duration) - 1
  }

  /** Ticks of 6.25 ms, as many as fit the duration, at least one. */
  lemma TotalTicksIs(duration: nat)
    ensures var n := TotalTicks(duration);
      n >= 1 && duration < (n + 1) * 6_250_000 && (n * 6_250_000 <= duration || n == 1)
  {
  }

  /** An entry is in the tick it arrives in, or in the last one if it arrives later. */
  lemma TickIs(w: Window, e: Entry)
    requires w.entries != [] && w.entries[0].timestamp <= e.timestamp
    ensures var tick := TickOf(w, e); var offset := e.timestamp - w.entries[0].timestamp;
      && tick < TotalTicks(w.duration) && tick * 6_250_000 <= offset
      && (offset < (tick + 1) * 6_250_000 || tick + 1 == TotalTicks(w.duration))
  {
    hide TotalTicks;
    TotalTicksIs(w.duration);
  }

  lemma TickIsMonotone(w: Window, e: Entry, f: Entry)
    requires w.entries != [] && w.entries[0].timestamp <= e.timestamp <= f.timestamp
    ensures TickOf(w, e) <= TickOf(w, f)
  {
    QuotientGrows(e.timestamp - w.entries[0].timestamp, TICK_NS, f.timestamp - w.entries[0].timestamp, TICK_NS);
  }

  function Range(n: nat): seq<nat> {
    seq(n, i => i)
  }

  method ComputeTick(w: Window, e: Entry, totalTicks: nat) returns (tick: nat)
    requires w.entries != [] && w.entries[0].timestamp <= e.timestamp && totalTicks == TotalTicks(w.duration)
    ensures tick == TickOf(w, e) < totalTicks
  {
    var offset := e.timestamp - w.entries[0].timestamp;
    tick := offset / TICK_NS;
    tick := if tick < totalTicks - 1 then tick else totalTicks - 1;
  }

  /** Every index below `n` that is in a bucket is in the one of its tick. */
  ghost predicate InTheirTicks(w: Window, buckets: seq<seq<nat>>, n: nat)
    requires w.entries != [] && Sorted(w.entries)
  {
    forall t, j | 0 <= t < |buckets| && 0 <= j < |buckets[t]| ::
      buckets[t][j] < n <= |w.entries| && TickOf(w, w.entries[buckets[t][j]]) == t
  }

  lemma PushedInTick(w: Window, buckets: seq<seq<nat>>, n: nat, tick: nat)
    requires w.entries != [] && Sorted(w.entries) && n < |w.entries| && tick < |buckets|
    requires InTheirTicks(w, buckets, n) && TickOf(w, w.entries[n]) == tick
    ensures InTheirTicks(w, buckets[tick := buckets[tick] + [n]], n + 1)
  {
    hide TickOf;
  }

  /** The first `n` entries are in their buckets; buckets after the last one's are empty. */
  ghost predicate Bucketed(w: Window, buckets: seq<seq<nat>>, n: nat)
    requires w.entries != [] && Sorted(w.entries)
  {
    && n <= |w.entries|
    && |buckets| == TotalTicks(w.duration)
    && Flat(buckets) == Range(n)
    && InTheirTicks(w, buckets, n)
    && forall t | (if n == 0 then 0 else TickOf(w, w.entries[n - 1])) < t < |buckets| :: buckets[t] == []
  }

  lemma NothingBucketed(w: Window, buckets: seq<seq<nat>>)
    requires w.entries != [] && Sorted(w.entries)
    requires |buckets| == TotalTicks(w.duration) && forall t | 0 <= t < |buckets| :: buckets[t] == []
    ensures Bucketed(w, buckets, 0)
  {
    FlatEmpty(buckets);
  }

  lemma AllBucketed(w: Window, buckets: seq<seq<nat>>)
    requires w.entries != [] && Sorted(w.entries) && Bucketed(w, buckets, |w.entries|)
    ensures Flat(buckets) == Range(|w.entries|) && InTheirTicks(w, buckets, |w.entries|)
  {
  }

  lemma OneMoreBucketed(w: Window, buckets: seq<seq<nat>>, n: nat, tick: nat)
    requires w.entries != [] && Sorted(w.entries) && n < |w.entries|
    requires Bucketed(w, buckets, n) && tick == TickOf(w, w.entries[n]) < |buckets|
    ensures Bucketed(w, buckets[tick := buckets[tick] + [n]], n + 1)
  {
    if n > 0 {
      TickIsMonotone(w, w.entries[n - 1], w.entries[n]);
    }
    hide TickOf, TotalTicks, Flat, InTheirTicks;
    FlatPush(buckets, tick, n);
    PushedInTick(w, buckets, n, tick);
    assert Range(n + 1) == Range(n) + [n];
  }

  /** The entry arrives in the tick, or after it if that is the last one. */
  ghost predicate ArrivesIn(w: Window, e: Entry, tick: nat, totalTicks: nat) {
    && w.entries != [] && w.entries[0].timestamp + tick * 6_250_000 <= e.timestamp
    && (e.timestamp < w.entries[0].timestamp + (tick + 1) * 6_250_000 || tick + 1 == totalTicks)
  }

  lemma ArriveInTheirTicks(w: Window, buckets: seq<seq<nat>>)
    requires w.entries != [] && Sorted(w.entries) && InTheirTicks(w, buckets, |w.entries|)
    ensures forall t, j | 0 <= t < |buckets| && 0 <= j < |buckets[t]| ::
      buckets[t][j] < |w.entries| && ArrivesIn(w, w.entries[buckets[t][j]], t, TotalTicks(w.duration))
  {
    hide TickOf, TotalTicks;
    forall t, j | 0 <= t < |buckets| && 0 <= j < |buckets[t]|
      ensures buckets[t][j] < |w.entries| && ArrivesIn(w, w.entries[buckets[t][j]], t, TotalTicks(w.duration))
    {
      TickIs(w, w.entries[buckets[t][j]]);
    }
  }

  /** Sorts the entries into ticks: every index is in the bucket of its tick, and the
      buckets, one after the other, list every index once, in order. */
  method AssignTicksReal(w: Window) returns (totalTicks: nat, buckets: seq<seq<nat>>)
    requires w.entries != [] && Sorted(w.entries)
    ensures totalTicks == TotalTicks(w.duration) == |buckets|
    ensures Flat(buckets) == Range(|w.entries|)
    ensures InTheirTicks(w, buckets, |w.entries|)
    ensures totalTicks >= 1 && w.duration < (totalTicks + 1) * 6_250_000 && (totalTicks * 6_250_000 <= w.duration || totalTicks == 1)
    ensures forall t, j | 0 <= t < |buckets| && 0 <= j < |buckets[t]| ::
      && buckets[t][j] < |w.entries| && ArrivesIn(w, w.entries[buckets[t][j]], t, totalTicks)
  {
    TotalTicksIs(w.duration);
    hide Bucketed, TickOf, Flat, InTheirTicks;
    totalTicks := if w.duration / TICK_NS > 1 then w.duration / TICK_NS else 1;
    assert totalTicks == TotalTicks(w.duration);
    hide TotalTicks;
    buckets := seq(totalTicks, _ => []);
    NothingBucketed(w, buckets);
    var idx: nat := 0;
    while idx < |w.entries|
      invariant 0 <= idx <= |w.entries| && |buckets| == totalTicks && Bucketed(w, buckets, idx)
    {
      var tick := ComputeTick(w, w.entries[idx], totalTicks);
      OneMoreBucketed(w, buckets, idx, tick);
      buckets := buckets[tick := buckets[tick] + [idx]];
      idx := idx + 1;
    }
    AllBucketed(w, buckets);
    ArriveInTheirTicks(w, buckets);
  }

  lemma SlotFitsInTicks(duration: nat)
    requires duration <= SLOT_NS
    ensures 1 <= TotalTicks(duration) <= TICKS_PER_SLOT
  {
    QuotientGrows(duration, TICK_NS, SLOT_NS, TICK_NS);
  }

  // ---- The whole replay ----

  const FIRST_SLOT: nat := 100
  const SLOTS_BETWEEN_WINDOWS: nat := 10

  /** An entry handed to the scheduler, and the slot the scheduler is told it is in. */
  datatype Delivery = Delivery(entry: Entry, slot: nat)

  function EntriesOf(ds: seq<Delivery>): seq<Entry> {
    seq(|ds|, i requires 0 <= i < |ds| => ds[i].entry)
  }

  /** The entries that are handed out: not dropped on receipt, and parsable. */
  function Kept(es: seq<Entry>, dropped: set<nat>): seq<Entry> {
    if es == [] then []
    else
      var e := es[|es| - 1];
      Kept(es[..|es| - 1], dropped) + if e.signature !in dropped && e.parses then [e] else []
  }

  lemma {:induction false} KeptAppend(es: seq<Entry>, fs: seq<Entry>, dropped: set<nat>)
    ensures Kept(es + fs, dropped) == Kept(es, dropped) + Kept(fs, dropped)
    decreases |fs|
  {
    if fs == [] {
      assert es + fs == es;
    } else {
      KeptAppend(es, fs[..|fs| - 1], dropped);
      assert (es + fs)[..|es + fs| - 1] == es + fs[..|fs| - 1];
    }
  }

  /** Positions of exactly the entries that were not dropped and parse, in order. */
  ghost predicate KeptAt(es: seq<Entry>, dropped: set<nat>, at: seq<nat>) {
    && (forall i, j | 0 <= i < j < |at| :: at[i] < at[j])
    && (forall i | 0 <= i < |at| :: at[i] < |es|)
    && (forall k: nat | k < |es| :: k in at <==> es[k].signature !in dropped && es[k].parses)
  }

  lemma KeptAtNext(es: seq<Entry>, dropped: set<nat>, at: seq<nat>)
    requires es != [] && KeptAt(es[..|es| - 1], dropped, at)
    ensures var n: nat := |es| - 1; KeptAt(es, dropped, if es[n].signature !in dropped && es[n].parses then at + [n] else at)
  {
    var n: nat := |es| - 1;
    assert n !in at;
    assert forall k: nat | k < n :: es[..n][k] == es[k];
    assert forall k: nat :: k in at + [n] <==> k in at || k == n;
  }

  lemma NothingKept(dropped: set<nat>)
    ensures KeptAt([], dropped, [])
  {
  }

  lemma PickMore(es: seq<Entry>, at: seq<nat>, kept: seq<Entry>)
    requires es != [] && |at| == |kept|
    requires forall i | 0 <= i < |at| :: at[i] < |es| - 1 && kept[i] == es[..|es| - 1][at[i]]
    ensures var n := |es| - 1;
      && (forall i | 0 <= i < |at| :: at[i] < |es| && kept[i] == es[at[i]])
      && (forall i | 0 <= i < |at + [n]| :: (at + [n])[i] < |es| && (kept + [es[n]])[i] == es[(at + [n])[i]])
  {
  }

  /** Where the kept entries stand: in the order of the recording, exactly those that were
      not dropped and parse. */
  lemma {:induction false} KeptAre(es: seq<Entry>, dropped: set<nat>) returns (at: seq<nat>)
    ensures KeptAt(es, dropped, at) && |at| == |Kept(es, dropped)|
    ensures forall i | 0 <= i < |at| :: at[i] < |es| && Kept(es, dropped)[i] == es[at[i]]
  {
    hide KeptAt;
    if es == [] {
      at := [];
      NothingKept(dropped);
    } else {
      var n := |es| - 1;
      at := KeptAre(es[..n], dropped);
      KeptAtNext(es, dropped, at);
      PickMore(es, at, Kept(es[..n], dropped));
      if es[n].signature !in dropped && es[n].parses {
        at := at + [n];
      }
    }
  }

  lemma EntriesAppend(ds: seq<Delivery>, fs: seq<Delivery>)
    ensures EntriesOf(ds + fs) == EntriesOf(ds) + EntriesOf(fs)
  {
  }

  /** The scheduler is never told of a slot again once it was told of a later one. */
  ghost predicate SlotsAscend(ds: seq<Delivery>) {
    forall i, j | 0 <= i < j < |ds| :: ds[i].slot <= ds[j].slot
  }

  ghost predicate SlotsWithin(ds: seq<Delivery>, lo: nat, hi: nat) {
    forall i | 0 <= i < |ds| :: lo <= ds[i].slot < hi
  }

  lemma LaterSlots(ds: seq<Delivery>, fs: seq<Delivery>, lo: nat, mid: nat, mid': nat, hi: nat)
    requires SlotsAscend(ds) && SlotsAscend(fs) && SlotsWithin(ds, lo, mid) && SlotsWithin(fs, mid', hi)
    requires lo <= mid <= mid' <= hi
    ensures SlotsAscend(ds + fs) && SlotsWithin(ds + fs, lo, hi)
  {
  }

  lemma SameSlots(ds: seq<Delivery>, slot: nat)
    requires SlotsWithin(ds, slot, slot + 1)
    ensures SlotsAscend(ds)
  {
  }

  /** Hands out a slot's entries tick by tick, by index, all of them in the same slot: a
      slot never takes more ticks than the scheduler is told a slot has. */
  method ReplaySlot(slot: Window, slotBase: nat, dropped: set<nat>) returns (sent: seq<Delivery>)
    requires slot.entries != [] && Sorted(slot.entries) && slot.duration <= SLOT_NS
    ensures EntriesOf(sent) == Kept(slot.entries, dropped) && SlotsWithin(sent, slotBase, slotBase + 1)
  {
    hide Flat, Kept, EntriesOf, SlotsWithin, EntriesAt, InRangeOf, InTheirTicks, TotalTicks, Sorted;
    var totalTicks, buckets := AssignTicksReal(slot);
    SlotFitsInTicks(slot.duration);
    NothingReplayed(slot, slotBase, dropped);
    sent := [];
    ghost var order: seq<nat> := [];
    var tick := 0;
    assert buckets[..0] == [];
    while tick < totalTicks
      invariant 0 <= tick <= totalTicks && order == Flat(buckets[..tick])
      invariant InRangeOf(order, slot) && EntriesOf(sent) == Kept(EntriesAt(slot, order), dropped)
      invariant SlotsWithin(sent, slotBase, slotBase + 1)
    {
      var currentSlot := slotBase + tick / TICKS_PER_SLOT;
      assert currentSlot == slotBase;
      BucketInRange(slot, buckets, tick);
      var more := ReplayTick(slot, buckets[tick], currentSlot, dropped);
      EntriesAppend(sent, more);
      MoreSlots(sent, more, slotBase, slotBase + 1);
      TickDelivered(slot, order, buckets[tick], dropped);
      FlatNext(buckets, tick);
      sent := sent + more;
      order := order + buckets[tick];
      tick := tick + 1;
    }
    assert buckets[..tick] == buckets;
    AllEntries(slot);
  }

  lemma NothingReplayed(slot: Window, slotBase: nat, dropped: set<nat>)
    ensures Flat<nat>([]) == [] && InRangeOf([], slot) && EntriesOf([]) == Kept(EntriesAt(slot, []), dropped)
    ensures SlotsWithin([], slotBase, slotBase + 1)
  {
  }

  lemma MoreSlots(ds: seq<Delivery>, fs: seq<Delivery>, lo: nat, hi: nat)
    requires SlotsWithin(ds, lo, hi) && SlotsWithin(fs, lo, hi)
    ensures SlotsWithin(ds + fs, lo, hi)
  {
  }

  lemma AllEntries(slot: Window)
    ensures InRangeOf(Range(|slot.entries|), slot) && EntriesAt(slot, Range(|slot.entries|)) == slot.entries
  {
  }

  ghost predicate InRangeOf(order: seq<nat>, slot: Window) {
    forall i | 0 <= i < |order| :: order[i] < |slot.entries|
  }

  function EntriesAt(slot: Window, order: seq<nat>): seq<Entry>
    requires InRangeOf(order, slot)
  {
    seq(|order|, i requires 0 <= i < |order| => slot.entries[order[i]])
  }

  lemma BucketInRange(slot: Window, buckets: seq<seq<nat>>, tick: nat)
    requires slot.entries != [] && Sorted(slot.entries) && InTheirTicks(slot, buckets, |slot.entries|) && tick < |buckets|
    ensures InRangeOf(buckets[tick], slot)
  {
    hide TickOf;
  }

  lemma TickDelivered(slot: Window, order: seq<nat>, bucket: seq<nat>, dropped: set<nat>)
    requires InRangeOf(order, slot) && InRangeOf(bucket, slot)
    ensures InRangeOf(order + bucket, slot)
    ensures Kept(EntriesAt(slot, order + bucket), dropped) == Kept(EntriesAt(slot, order), dropped) + Kept(EntriesAt(slot, bucket), dropped)
  {
    assert EntriesAt(slot, order + bucket) == EntriesAt(slot, order) + EntriesAt(slot, bucket);
    KeptAppend(EntriesAt(slot, order), EntriesAt(slot, bucket), dropped);
  }

  /** Hands out the entries of one tick, skipping those that were dropped or do not parse. */
  method ReplayTick(slot: Window, bucket: seq<nat>, currentSlot: nat, dropped: set<nat>) returns (sent: seq<Delivery>)
    requires InRangeOf(bucket, slot)
    ensures EntriesOf(sent) == Kept(EntriesAt(slot, bucket), dropped) && SlotsWithin(sent, currentSlot, currentSlot + 1)
  {
    sent := [];
    var j := 0;
    while j < |bucket|
      invariant 0 <= j <= |bucket|
      invariant EntriesOf(sent) == Kept(EntriesAt(slot, bucket)[..j], dropped)
      invariant SlotsWithin(sent, currentSlot, currentSlot + 1)
    {
      var entry := slot.entries[bucket[j]];
      assert EntriesAt(slot, bucket)[..j + 1][..j] == EntriesAt(slot, bucket)[..j];
      j := j + 1;
      if entry.signature in dropped {
        continue;
      }
      if entry.parses {
        sent := sent + [Delivery(entry, currentSlot)];
      }
    }
    assert EntriesAt(slot, bucket)[..j] == EntriesAt(slot, bucket);
  }

  /** Hands out a window's entries slot by slot, numbering the slots on. */
  method ReplayWindow(window: Window, slotBase: nat, dropped: set<nat>)
    returns (sent: seq<Delivery>, next: nat, ghost runs: seq<seq<Entry>>, ghost bySlot: seq<seq<Delivery>>)
    requires Proper(window)
    ensures EntriesOf(sent) == Kept(window.entries, dropped)
    ensures slotBase < next && SlotsAscend(sent) && SlotsWithin(sent, slotBase, next)
    ensures MaximalRuns(SameSlot(window.entries[0].timestamp), window.entries, runs) && next == slotBase + |runs|
    ensures Flat(bySlot) == sent && |bySlot| == |runs|
    ensures forall j | 0 <= j < |runs| ::
      EntriesOf(bySlot[j]) == Kept(runs[j], dropped) && forall i | 0 <= i < |bySlot[j]| :: bySlot[j][i].slot == slotBase + j
  {
    hide MaximalRuns, Kept, EntriesOf, SlotsAscend, SlotsWithin, Flat;
    var slots := SegmentWindowIntoSlots(window);
    runs, bySlot := Parts(slots), [];
    RunsAreFlat(SameSlot(window.entries[0].timestamp), window.entries, Parts(slots));
    sent, next := [], slotBase;
    NothingDelivered(slotBase, dropped);
    var j := 0;
    while j < |slots|
      invariant 0 <= j <= |slots| && next == slotBase + j
      invariant EntriesOf(sent) == Kept(Flat(Parts(slots)[..j]), dropped)
      invariant SlotsAscend(sent) && SlotsWithin(sent, slotBase, next)
      invariant Flat(bySlot) == sent && |bySlot| == j
      invariant forall l | 0 <= l < j ::
        EntriesOf(bySlot[l]) == Kept(runs[l], dropped) && forall i | 0 <= i < |bySlot[l]| :: bySlot[l][i].slot == slotBase + l
    {
      SlotsAreProper(window, slots, j);
      var more := ReplaySlot(slots[j], next, dropped);
      SameSlots(more, next);
      AllIn(more, next);
      FlatSnoc(bySlot, more);
      FlatNext(Parts(slots), j);
      bySlot := bySlot + [more];
      LaterSlots(sent, more, slotBase, next, next, next + 1);
      EntriesAppend(sent, more);
      KeptAppend(Flat(Parts(slots)[..j]), slots[j].entries, dropped);
      sent := sent + more;
      assert Parts(slots)[..j + 1][..j] == Parts(slots)[..j];
      next := next + 1;
      j := j + 1;
    }
    assert Parts(slots)[..j] == Parts(slots);
  }

  lemma AllIn(ds: seq<Delivery>, slot: nat)
    requires SlotsWithin(ds, slot, slot + 1)
    ensures forall i | 0 <= i < |ds| :: ds[i].slot == slot
  {
  }

  lemma NothingDelivered(slot: nat, dropped: set<nat>)
    ensures Flat<Entry>([]) == [] && Flat<Delivery>([]) == []
    ensures EntriesOf([]) == [] && Kept([], dropped) == [] && SlotsAscend([]) && SlotsWithin([], slot, slot)
  {
  }

  /** The deliveries of each window, and the numbers its slots start and end at: the first
      window starts at 100, each takes one number for every slot it is cut into, and ten
      numbers are left out between windows. */
  ghost predicate Numbered(windows: seq<Window>, dropped: set<nat>, byWindow: seq<seq<Delivery>>, bases: seq<nat>, ends: seq<nat>) {
    && |byWindow| == |bases| == |ends| == |windows|
    && (windows != [] ==> bases[0] == 100)
    && (forall v, w | 0 <= v && w == v + 1 < |windows| :: bases[w] == ends[v] + 10)
    && (forall w | 0 <= w < |windows| ::
          && EntriesOf(byWindow[w]) == Kept(windows[w].entries, dropped)
          && SlotsTaken(windows[w], bases[w], ends[w])
          && forall i | 0 <= i < |byWindow[w]| :: bases[w] <= byWindow[w][i].slot < ends[w])
  }

  /** One number for each run of entries in the same slot. */
  ghost predicate SlotsTaken(window: Window, base: nat, end: nat) {
    window.entries != [] && exists runs :: MaximalRuns(SameSlot(window.entries[0].timestamp), window.entries, runs) && end == base + |runs|
  }

  lemma NumberNext(windows: seq<Window>, i: nat, dropped: set<nat>, byWindow: seq<seq<Delivery>>, bases: seq<nat>, ends: seq<nat>,
                   more: seq<Delivery>, base: nat, end: nat)
    requires i < |windows| && Numbered(windows[..i], dropped, byWindow, bases, ends)
    requires base == if i == 0 then 100 else ends[i - 1] + 10
    requires EntriesOf(more) == Kept(windows[i].entries, dropped) && SlotsTaken(windows[i], base, end) && SlotsWithin(more, base, end)
    ensures Numbered(windows[..i + 1], dropped, byWindow + [more], bases + [base], ends + [end])
  {
    hide EntriesOf, Kept, SlotsTaken;
    assert forall w | 0 <= w < i :: windows[..i + 1][w] == windows[..i][w];
  }

  /** Windows, then slots, then ticks: what is handed out is the recording without what is
      skipped, entry for entry and in order, in slots that are numbered upwards. */
  method ReplayAll(entries: seq<Entry>, dropped: set<nat>)
    returns (sent: seq<Delivery>, ghost windows: seq<Window>, ghost byWindow: seq<seq<Delivery>>, ghost bases: seq<nat>, ghost ends: seq<nat>)
    requires Sorted(entries)
    ensures EntriesOf(sent) == Kept(entries, dropped)
    ensures SlotsAscend(sent) && forall i | 0 <= i < |sent| :: sent[i].slot >= 100
    ensures CutAtGaps(entries, windows) && Flat(byWindow) == sent && Numbered(windows, dropped, byWindow, bases, ends)
  {
    var cut := SegmentIntoWindows(entries);
    windows := cut;
    RunsAreFlat(WithinGap, entries, Parts(windows));
    hide Numbered, CutAtGaps, Flat;
    sent, byWindow, bases, ends := ReplayWindows(cut, dropped);
  }

  /** What has been handed out of the first `i` windows; the next one starts at `base`. */
  ghost predicate ReplayedUpTo(windows: seq<Window>, i: nat, dropped: set<nat>, sent: seq<Delivery>,
                               byWindow: seq<seq<Delivery>>, bases: seq<nat>, ends: seq<nat>, base: nat)
    requires i <= |windows|
  {
    && EntriesOf(sent) == Kept(Flat(Parts(windows)[..i]), dropped)
    && SlotsAscend(sent) && SlotsWithin(sent, FIRST_SLOT, base) && FIRST_SLOT <= base
    && Flat(byWindow) == sent && Numbered(windows[..i], dropped, byWindow, bases, ends)
    && |ends| == i && base == if i == 0 then 100 else ends[i - 1] + 10
  }

  lemma NothingReplayedYet(windows: seq<Window>, dropped: set<nat>)
    ensures ReplayedUpTo(windows, 0, dropped, [], [], [], [], FIRST_SLOT)
  {
    NothingDelivered(FIRST_SLOT, dropped);
    assert Parts(windows)[..0] == [] && windows[..0] == [];
  }

  lemma ReplayedNext(windows: seq<Window>, i: nat, dropped: set<nat>, sent: seq<Delivery>,
                     byWindow: seq<seq<Delivery>>, bases: seq<nat>, ends: seq<nat>, base: nat, more: seq<Delivery>, next: nat)
    requires i < |windows| && ReplayedUpTo(windows, i, dropped, sent, byWindow, bases, ends, base) && base <= next
    requires EntriesOf(more) == Kept(windows[i].entries, dropped) && SlotsAscend(more) && SlotsWithin(more, base, next)
    requires SlotsTaken(windows[i], base, next)
    ensures ReplayedUpTo(windows, i + 1, dropped, sent + more, byWindow + [more], bases + [base], ends + [next], next + SLOTS_BETWEEN_WINDOWS)
  {
    hide EntriesOf, Kept, Flat, Numbered, SlotsAscend, SlotsWithin, SlotsTaken, Parts;
    NumberNext(windows, i, dropped, byWindow, bases, ends, more, base, next);
    FlatSnoc(byWindow, more);
    LaterSlots(sent, more, FIRST_SLOT, base, base, next);
    WiderSlots(sent + more, FIRST_SLOT, next, next + SLOTS_BETWEEN_WINDOWS);
    EntriesAppend(sent, more);
    PartsAt(windows, i);
    KeptAppend(Flat(Parts(windows)[..i]), windows[i].entries, dropped);
    FlatNext(Parts(windows), i);
  }

  lemma PartsAt(windows: seq<Window>, i: nat)
    requires i < |windows|
    ensures |Parts(windows)| == |windows| && Parts(windows)[i] == windows[i].entries
  {
  }

  lemma AllReplayed(windows: seq<Window>, dropped: set<nat>, sent: seq<Delivery>,
                    byWindow: seq<seq<Delivery>>, bases: seq<nat>, ends: seq<nat>, base: nat)
    requires ReplayedUpTo(windows, |windows|, dropped, sent, byWindow, bases, ends, base)
    ensures EntriesOf(sent) == Kept(Flat(Parts(windows)), dropped)
    ensures SlotsAscend(sent) && SlotsWithin(sent, FIRST_SLOT, base)
    ensures Flat(byWindow) == sent && Numbered(windows, dropped, byWindow, bases, ends)
  {
    hide EntriesOf, Kept, Flat, Numbered, SlotsAscend, SlotsWithin;
    assert Parts(windows)[..|windows|] == Parts(windows) && windows[..|windows|] == windows;
  }

  method ReplayWindows(windows: seq<Window>, dropped: set<nat>)
    returns (sent: seq<Delivery>, ghost byWindow: seq<seq<Delivery>>, ghost bases: seq<nat>, ghost ends: seq<nat>)
    requires forall w | 0 <= w < |windows| :: Proper(windows[w])
    ensures EntriesOf(sent) == Kept(Flat(Parts(windows)), dropped)
    ensures SlotsAscend(sent) && exists hi :: SlotsWithin(sent, FIRST_SLOT, hi)
    ensures Flat(byWindow) == sent && Numbered(windows, dropped, byWindow, bases, ends)
  {
    hide Kept, EntriesOf, SlotsAscend, SlotsWithin, Proper, Flat, Numbered, MaximalRuns, ReplayedUpTo, SlotsTaken;
    sent, byWindow, bases, ends := [], [], [], [];
    var currentSlotBase: nat := FIRST_SLOT;
    NothingReplayedYet(windows, dropped);
    var i: nat := 0;
    while i < |windows|
      invariant i <= |windows|
      invariant ReplayedUpTo(windows, i, dropped, sent, byWindow, bases, ends, currentSlotBase)
    {
      ProperIsSome(windows[i]);
      ghost var runs, bySlot;
      var more, next;
      more, next, runs, bySlot := ReplayWindow(windows[i], currentSlotBase, dropped);
      TakenIs(windows[i], currentSlotBase, next, runs);
      ReplayedNext(windows, i, dropped, sent, byWindow, bases, ends, currentSlotBase, more, next);
      byWindow, bases, ends := byWindow + [more], bases + [currentSlotBase], ends + [next];
      sent := sent + more;
      currentSlotBase := next + SLOTS_BETWEEN_WINDOWS;
      i := i + 1;
    }
    AllReplayed(windows, dropped, sent, byWindow, bases, ends, currentSlotBase);
  }

  lemma TakenIs(window: Window, base: nat, end: nat, runs: seq<seq<Entry>>)
    requires window.entries != [] && MaximalRuns(SameSlot(window.entries[0].timestamp), window.entries, runs) && end == base + |runs|
    ensures SlotsTaken(window, base, end)
  {
    hide MaximalRuns;
  }

  lemma ProperIsSome(w: Window)
    requires Proper(w)
    ensures w.entries != []
  {
  }

  lemma WiderSlots(ds: seq<Delivery>, lo: nat, hi: nat, hi': nat)
    requires SlotsWithin(ds, lo, hi) && hi <= hi'
    ensures SlotsWithin(ds, lo, hi')
  {
  }
}
