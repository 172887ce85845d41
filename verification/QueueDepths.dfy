/** How many transactions wait for each account, as the lock manager keeps count, and the
    penalty it charges for waiting. Depths are reals, because they decay. */
module QueueDepths {
  import opened Locks

  type Depths = map<Account, real>

  /** Depths below this are forgotten. */
  const MIN_DEPTH: real := 0.01

  const AVG_EXEC_MS: real := 25.0
  const MAX_SLOT_MS: real := 400.0

  function DepthOf(d: Depths, a: Account): real {
    if a in d then d[a] else 0.0
  }

  function MaxReal(x: real, y: real): real {
    if x < y then y else x
  }

  function Clamp(x: real, lo: real, hi: real): real {
    if x < lo then lo else if x > hi then hi else x
  }

  function Queued(d: Depths, locks: seq<Lock>): Depths {
    if locks == [] then d
    else
      var before := Queued(d, locks[..|locks| - 1]);
      var a := locks[|locks| - 1].account;
      before[a := DepthOf(before, a) + 1.0]
  }

  function DequeuedOne(d: Depths, a: Account): Depths {
    if a !in d then d
    else
      var left := MaxReal(d[a], 0.0) - 1.0;
      if left < MIN_DEPTH then d - {a} else d[a := left]
  }

  function Dequeued(d: Depths, locks: seq<Lock>): Depths {
    if locks == [] then d else DequeuedOne(Dequeued(d, locks[..|locks| - 1]), locks[|locks| - 1].account)
  }

  function Decayed(d: Depths, factor: real): Depths {
    map a | a in d && d[a] * factor > MIN_DEPTH :: d[a] * factor
  }

  /** Every account in the map has a depth worth remembering. */
  predicate Remembered(d: Depths) {
    forall a | a in d :: d[a] >= MIN_DEPTH
  }

  /** How often the list names the account. */
  function Mentions(locks: seq<Lock>, a: Account): nat {
    if locks == [] then 0
    else Mentions(locks[..|locks| - 1], a) + if locks[|locks| - 1].account == a then 1 else 0
  }

  /** Every mention counts, repeated ones too. */
  lemma {:induction false} MentionsIs(locks: seq<Lock>, a: Account)
    ensures Mentions(locks, a) == |set i | 0 <= i < |locks| && locks[i].account == a|
  {
    var all := set i | 0 <= i < |locks| && locks[i].account == a;
    if locks != [] {
      var n := |locks| - 1;
      MentionsIs(locks[..n], a);
      var fewer := set i | 0 <= i < n && locks[..n][i].account == a;
      assert all == fewer + if locks[n].account == a then {n} else {};
    }
  }

  lemma {:induction false} QueuedAt(d: Depths, locks: seq<Lock>, a: Account)
    ensures DepthOf(Queued(d, locks), a) == DepthOf(d, a) + Mentions(locks, a) as real
    ensures a in Queued(d, locks) <==> a in d || Mentions(locks, a) > 0
  {
    if locks != [] {
      QueuedAt(d, locks[..|locks| - 1], a);
    }
  }

  lemma QueueingRemembers(d: Depths, locks: seq<Lock>)
    requires Remembered(d)
    ensures Remembered(Queued(d, locks))
  {
    forall a | a in Queued(d, locks) ensures Queued(d, locks)[a] >= MIN_DEPTH {
      QueuedAt(d, locks, a);
    }
  }

  lemma {:induction false} DequeuedAt(d: Depths, locks: seq<Lock>, a: Account, base: real)
    requires base == 0.0 || base >= MIN_DEPTH
    requires DepthOf(d, a) >= base + Mentions(locks, a) as real
    requires DepthOf(d, a) == 0.0 || DepthOf(d, a) >= base + Mentions(locks, a) as real + MIN_DEPTH
          || DepthOf(d, a) == base + Mentions(locks, a) as real
    requires a in d <==> DepthOf(d, a) > 0.0
    ensures DepthOf(Dequeued(d, locks), a) == DepthOf(d, a) - Mentions(locks, a) as real
    ensures a in Dequeued(d, locks) <==> DepthOf(Dequeued(d, locks), a) > 0.0
    decreases |locks|
  {
    if locks != [] {
      var front := locks[..|locks| - 1];
      if locks[|locks| - 1].account == a {
        DequeuedAt(d, front, a, base + 1.0);
      } else {
        DequeuedAt(d, front, a, base);
      }
    }
  }

  /** Leaving a queue takes one off, and what is left below a hundredth is forgotten. */
  lemma DequeuedOneIs(d: Depths, a: Account, b: Account)
    requires forall x | x in d :: d[x] >= 0.0
    ensures var d' := Dequeued(d, [Lock(a, true)]);
      && (b != a ==> (b in d' <==> b in d) && DepthOf(d', b) == DepthOf(d, b))
      && (a in d && d[a] >= 1.01 ==> a in d' && d'[a] == d[a] - 1.0)
      && (a !in d || d[a] < 1.01 ==> a !in d')
  {
    assert [Lock(a, true)][..0] == [];
  }

  /** Every depth is scaled, and forgotten from a hundredth down. */
  lemma DecayedIs(d: Depths, factor: real, a: Account)
    ensures a in d && d[a] * factor > 0.01 ==> a in Decayed(d, factor) && Decayed(d, factor)[a] == d[a] * factor
    ensures a !in d || d[a] * factor <= 0.01 ==> a !in Decayed(d, factor)
  {
  }

  /** Dequeuing undoes queueing, whatever accounts the list names and however often. */
  lemma DequeueUndoesQueue(d: Depths, locks: seq<Lock>)
    requires Remembered(d)
    ensures Dequeued(Queued(d, locks), locks) == d
  {
    var d' := Dequeued(Queued(d, locks), locks);
    forall a ensures a in d' <==> a in d ensures DepthOf(d', a) == DepthOf(d, a) {
      QueuedAt(d, locks, a);
      DequeuedAt(Queued(d, locks), locks, a, DepthOf(d, a));
    }
    assert d'.Keys == d.Keys;
    forall a | a in d ensures d'[a] == d[a] {
      assert DepthOf(d', a) == DepthOf(d, a);
    }
  }

  lemma {:induction false} QueuedAppend(d: Depths, l1: seq<Lock>, l2: seq<Lock>)
    ensures Queued(d, l1 + l2) == Queued(Queued(d, l1), l2)
    decreases |l2|
  {
    if l2 == [] {
      assert l1 + l2 == l1;
    } else {
      QueuedAppend(d, l1, l2[..|l2| - 1]);
      assert (l1 + l2)[..|l1 + l2| - 1] == l1 + l2[..|l2| - 1];
    }
  }

  lemma {:induction false} DequeuedAppend(d: Depths, l1: seq<Lock>, l2: seq<Lock>)
    ensures Dequeued(d, l1 + l2) == Dequeued(Dequeued(d, l1), l2)
    decreases |l2|
  {
    if l2 == [] {
      assert l1 + l2 == l1;
    } else {
      DequeuedAppend(d, l1, l2[..|l2| - 1]);
      assert (l1 + l2)[..|l1 + l2| - 1] == l1 + l2[..|l2| - 1];
    }
  }

  /** Queueing that is never undone shows, unless it names no account. */
  lemma DepthsBackIff(d: Depths, locks: seq<Lock>)
    ensures Queued(d, locks) == d <==> locks == []
  {
    if locks != [] {
      var a := locks[|locks| - 1].account;
      QueuedAt(d, locks, a);
    }
  }

  /** Every operation forgets what is too shallow. */
  lemma {:induction false} DequeueingRemembers(d: Depths, locks: seq<Lock>)
    requires Remembered(d)
    ensures Remembered(Dequeued(d, locks))
  {
    if locks != [] {
      DequeueingRemembers(d, locks[..|locks| - 1]);
    }
  }

  // ---- The serialization penalty ----

  function DepthSum(d: Depths, locks: seq<Lock>): real {
    if locks == [] then 0.0
    else DepthSum(d, locks[..|locks| - 1]) + DepthOf(d, locks[|locks| - 1].account)
  }

  /** The share of a slot the transaction is expected to be blocked for. */
  function SerializationPenalty(d: Depths, locks: seq<Lock>): real {
    Clamp(DepthSum(d, locks) * AVG_EXEC_MS / MAX_SLOT_MS, 0.0, 0.99)
  }

  lemma {:induction false} DepthSumAppend(d: Depths, l1: seq<Lock>, l2: seq<Lock>)
    ensures DepthSum(d, l1 + l2) == DepthSum(d, l1) + DepthSum(d, l2)
    decreases |l2|
  {
    if l2 == [] {
      assert l1 + l2 == l1;
    } else {
      DepthSumAppend(d, l1, l2[..|l2| - 1]);
      assert (l1 + l2)[..|l1 + l2| - 1] == l1 + l2[..|l2| - 1];
    }
  }

  lemma DepthSumOfOne(d: Depths, l: Lock)
    ensures DepthSum(d, [l]) == if l.account in d then d[l.account] else 0.0
  {
    assert [l][..0] == [];
  }

  /** A sixteenth of the depths of all the accounts named, at least nothing and at most
      ninety-nine hundredths: 25 ms each, of a slot of 400. */
  lemma PenaltyIs(d: Depths, locks: seq<Lock>)
    ensures var p, sum := SerializationPenalty(d, locks), DepthSum(d, locks);
      && (sum <= 0.0 ==> p == 0.0)
      && (0.0 <= sum <= 15.84 ==> 16.0 * p == sum)
      && (sum >= 15.84 ==> p == 0.99)
  {
  }

  /** Nowhere shallower. */
  ghost predicate Deeper(d: Depths, d': Depths) {
    forall a :: DepthOf(d, a) <= DepthOf(d', a)
  }

  lemma {:induction false} DeeperSums(d: Depths, d': Depths, locks: seq<Lock>)
    requires Deeper(d, d')
    ensures DepthSum(d, locks) <= DepthSum(d', locks)
  {
    if locks != [] {
      DeeperSums(d, d', locks[..|locks| - 1]);
    }
  }

  lemma PenaltyIsMonotone(d: Depths, d': Depths, locks: seq<Lock>)
    requires Deeper(d, d')
    ensures 0.0 <= SerializationPenalty(d, locks) <= SerializationPenalty(d', locks) <= 0.99
  {
    DeeperSums(d, d', locks);
  }

  lemma QueueingDeepens(d: Depths, locks: seq<Lock>)
    ensures Deeper(d, Queued(d, locks))
  {
    forall a ensures DepthOf(d, a) <= DepthOf(Queued(d, locks), a) {
      QueuedAt(d, locks, a);
    }
  }

  lemma DecayLightens(d: Depths, factor: real)
    requires Remembered(d) && 0.0 <= factor <= 1.0
    ensures Remembered(Decayed(d, factor)) && Deeper(Decayed(d, factor), d)
  {
    forall a | a in d ensures d[a] * factor <= d[a] {
    }
  }
}
