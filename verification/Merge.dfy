/** The order in which execute batches are emitted: the descending merge of the checked
    transactions and the bundles. */
module Merge {
  import opened Orders
  import opened Protocol

  ghost function Merged(checked: set<PriorityId>, bundles: set<BundleId>): seq<Candidate>
    decreases |checked| + |bundles|
  {
    match Head(checked, bundles)
    case None => []
    case Some(Single(m)) => [Single(m)] + Merged(checked - {m}, bundles)
    case Some(Pack(b)) => [Pack(b)] + Merged(checked, bundles - {b})
  }

  ghost predicate Waits(c: Candidate, checked: set<PriorityId>, bundles: set<BundleId>) {
    match c
    case Single(m) => m in checked
    case Pack(b) => b in bundles
  }

  /** `c` goes before `d`: by priority, ties to single transactions, then by id. */
  predicate Before(c: Candidate, d: Candidate) {
    || c.Priority() > d.Priority()
    || (c.Priority() == d.Priority() && c.Single? && d.Pack?)
    || (c.Priority() == d.Priority() && c.Single? && d.Single? && Below(d.id, c.id))
    || (c.Priority() == d.Priority() && c.Pack? && d.Pack? && BundleBelow(d.bundle, c.bundle))
  }

  lemma HeadIsFirst(checked: set<PriorityId>, bundles: set<BundleId>, d: Candidate)
    requires Waits(d, checked, bundles)
    ensures Head(checked, bundles).Some?
    ensures var c := Head(checked, bundles).value; Waits(c, checked, bundles) && (d == c || Before(c, d))
  {
  }

  /** The merge holds everything that waits, exactly once, in the order of `Before`. */
  lemma {:induction false} MergedIsSorted(checked: set<PriorityId>, bundles: set<BundleId>)
    ensures |Merged(checked, bundles)| == |checked| + |bundles|
    ensures forall c :: c in Merged(checked, bundles) <==> Waits(c, checked, bundles)
    ensures forall i, j | 0 <= i < j < |Merged(checked, bundles)| ::
      Before(Merged(checked, bundles)[i], Merged(checked, bundles)[j])
    decreases |checked| + |bundles|
  {
    match Head(checked, bundles)
    case None =>
    case Some(c) =>
      var checked' := if c.Single? then checked - {c.id} else checked;
      var bundles' := if c.Pack? then bundles - {c.bundle} else bundles;
      MergedIsSorted(checked', bundles');
      var rest := Merged(checked', bundles');
      assert Merged(checked, bundles) == [c] + rest;
      assert Waits(c, checked, bundles);
      forall d ensures d in [c] + rest <==> Waits(d, checked, bundles) {
        assert Waits(d, checked, bundles) <==> d == c || Waits(d, checked', bundles');
      }
      forall j | 0 <= j < |rest| ensures Before(c, rest[j]) {
        assert Waits(rest[j], checked', bundles');
        HeadIsFirst(checked, bundles, rest[j]);
      }
  }

  function Heads(n: nat): seq<Event> {
    if n == 0 then [] else [StartHead] + Heads(n - 1)
  }

  /** The candidates that `n` starts in a row pick. */
  ghost function Picked(w: World, n: nat): seq<Candidate>
    requires Possible(w, Heads(n))
    decreases n
  {
    if n == 0 then []
    else
      assert Heads(n)[0] == StartHead && Heads(n)[1..] == Heads(n - 1);
      [Head(w.checked, w.bundles).value] + Picked(Apply(w, StartHead), n - 1)
  }

  /** Starts in a row pick a prefix of the merge: nothing is skipped. */
  lemma {:induction false} PickedIsPrefix(w: World, n: nat)
    requires Possible(w, Heads(n))
    ensures n <= |Merged(w.checked, w.bundles)|
    ensures Picked(w, n) == Merged(w.checked, w.bundles)[..n]
    ensures Merged(Run(w, Heads(n)).checked, Run(w, Heads(n)).bundles) == Merged(w.checked, w.bundles)[n..]
    decreases n
  {
    hide Apply, Enabled, Merged, Head;
    if n > 0 {
      assert Heads(n)[0] == StartHead && Heads(n)[1..] == Heads(n - 1);
      PickedIsPrefix(Apply(w, StartHead), n - 1);
      StartTakesHead(w);
    }
  }

  lemma StartTakesHead(w: World)
    requires Enabled(w, StartHead)
    ensures var c := Head(w.checked, w.bundles).value; var w' := Apply(w, StartHead);
      Merged(w.checked, w.bundles) == [c] + Merged(w'.checked, w'.bundles)
  {
    hide Free;
  }

  lemma {:induction false} HeadsAppend(n: nat)
    ensures Heads(n + 1) == Heads(n) + [StartHead]
  {
    if n > 0 {
      HeadsAppend(n - 1);
    }
  }

  /** Priorities of the batches started in a row never go up. */
  lemma PickedDescends(w: World, n: nat)
    requires Possible(w, Heads(n))
    ensures |Picked(w, n)| == n
    ensures forall i, j | 0 <= i < j < n :: Before(Picked(w, n)[i], Picked(w, n)[j])
    ensures forall i, d | 0 <= i < n && Waits(d, w.checked, w.bundles) && d !in Picked(w, n) :: Before(Picked(w, n)[i], d)
  {
    PickedIsPrefix(w, n);
    MergedIsSorted(w.checked, w.bundles);
    var all := Merged(w.checked, w.bundles);
    forall i, d | 0 <= i < n && Waits(d, w.checked, w.bundles) && d !in Picked(w, n)
      ensures Before(Picked(w, n)[i], d)
    {
      assert d in all;
      var j :| 0 <= j < |all| && all[j] == d;
      assert j >= n;
    }
  }
}
