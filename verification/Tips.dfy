/** The pair of tip transactions sent when the validator becomes the leader. */
module Tips {
  import opened Orders
  import opened Locks
  import opened Protocol
  import opened Invariant

  datatype TipPair = TipPair(key1: Key, locks1: seq<Lock>, key2: Key, locks2: seq<Lock>) {
    function Tx1(): Tx {
      Tx(locks1, BUNDLE_MARKER, 0)
    }

    function Tx2(): Tx {
      Tx(locks2, BUNDLE_MARKER, 0)
    }

    function Event(): Protocol.Event {
      StartTips(key1, Tx1(), key2, Tx2())
    }

    ghost predicate Fresh(txs: map<Key, Tx>) {
      key1 !in txs && key2 !in txs && key1 != key2 && DistinctAccounts(locks1) && DistinctAccounts(locks2)
    }
  }

  lemma TipFacts(w: World, t: TipPair)
    requires Inv(w) && t.Fresh(w.txs)
    ensures t.key1 !in w.executing && t.key2 !in w.executing && w.executing <= w.txs.Keys
    ensures forall m | m in w.checks :: m.key != t.key1 && m.key != t.key2
  {
  }

  /** The locks of new transactions are granted exactly when nothing executing conflicts. */
  lemma TipsFree(table: Table, w: World, t: TipPair)
    requires Exact(table, w.executing, w.txs + map[t.key1 := t.Tx1(), t.key2 := t.Tx2()])
    requires w.executing <= w.txs.Keys && t.Fresh(w.txs)
    ensures CanLockAll(table, t.locks1) <==> Free(w, t.locks1)
    ensures CanLockAll(table, t.locks2) <==> Free(w, t.locks2)
  {
    var txs := w.txs + map[t.key1 := t.Tx1(), t.key2 := t.Tx2()];
    CanLockIffNoConflict(table, w.executing, txs, t.locks1);
    CanLockIffNoConflict(table, w.executing, txs, t.locks2);
    assert forall h | h in w.executing :: h in w.txs && txs[h] == w.txs[h];
  }

  lemma TipsLeaveNoTrace(w: World, t: TipPair)
    requires t.Fresh(w.txs) && forall m | m in w.checks :: m.key != t.key1 && m.key != t.key2
    ensures w.txs + map[t.key1 := t.Tx1(), t.key2 := t.Tx2()] - {t.key1} - {t.key2} == w.txs
    ensures w.checks[MetaOf(t.key1, t.Tx1()) := 0][MetaOf(t.key2, t.Tx2()) := 0] == w.checks
  {
  }

  lemma BothFree(w: World, t: TipPair)
    ensures Free(w, t.locks1) && Free(w, t.locks2) <==>
      forall k | k in w.executing && k in w.txs :: !Conflict(t.locks1, w.txs[k].locks) && !Conflict(t.locks2, w.txs[k].locks)
  {
  }

  /** What the tip pair adds. */
  lemma TipsAre(w: World, t: TipPair)
    ensures var w' := TipsStarted(w, t.key1, t.Tx1(), t.key2, t.Tx2());
      && w'.executing == w.executing + {t.key1, t.key2}
      && w'.txs == w.txs + map[t.key1 := Tx(t.locks1, BUNDLE_MARKER, 0), t.key2 := Tx(t.locks2, BUNDLE_MARKER, 0)]
      && w'.executes == w.executes + multiset{PriorityId(BUNDLE_MARKER, 0, t.key1), PriorityId(BUNDLE_MARKER, 0, t.key2)}
  {
  }

  lemma TipsStart(w: World, t: TipPair)
    requires t.Fresh(w.txs) && Free(w, t.locks1) && Free(w, t.locks2)
    ensures Enabled(w, t.Event())
    ensures Apply(w, t.Event()) == TipsStarted(w, t.key1, t.Tx1(), t.key2, t.Tx2())
  {
  }
}
