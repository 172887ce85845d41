/** Account locks of transactions, and the two-set lock table of the batch scheduler:
    per account, the keys that write it and the keys that read it. */
module Locks {
  import opened Orders

  type Account = nat

  datatype Lock = Lock(account: Account, writable: bool)

  /** A transaction held by the bridge: its locks, and the priority and cost that the
      messages about it carry. */
  datatype Tx = Tx(locks: seq<Lock>, priority: nat, cost: nat)

  predicate Writes(locks: seq<Lock>, a: Account) {
    Lock(a, true) in locks
  }

  predicate Reads(locks: seq<Lock>, a: Account) {
    Lock(a, false) in locks
  }

  predicate Touches(locks: seq<Lock>, a: Account) {
    Writes(locks, a) || Reads(locks, a)
  }

  /** Two lock lists clash on an account when both touch it and one writes it. */
  predicate ClashOn(l1: seq<Lock>, l2: seq<Lock>, a: Account) {
    (Writes(l1, a) && Touches(l2, a)) || (Touches(l1, a) && Writes(l2, a))
  }

  ghost predicate Conflict(l1: seq<Lock>, l2: seq<Lock>) {
    exists a :: ClashOn(l1, l2, a)
  }

  ghost predicate DistinctAccounts(locks: seq<Lock>) {
    forall i, j | 0 <= i < j < |locks| :: locks[i].account != locks[j].account
  }

  /** Two lists conflict exactly when they name the same account and one of them writes it. */
  lemma ConflictIff(l1: seq<Lock>, l2: seq<Lock>)
    ensures Conflict(l1, l2) <==>
      exists i, j :: 0 <= i < |l1| && 0 <= j < |l2| && l1[i].account == l2[j].account && (l1[i].writable || l2[j].writable)
  {
    if a :| ClashOn(l1, l2, a) {
      var i :| 0 <= i < |l1| && l1[i].account == a && (Writes(l2, a) || l1[i].writable);
      var j :| 0 <= j < |l2| && l2[j].account == a && (l1[i].writable || l2[j].writable);
    }
    if i, j :| 0 <= i < |l1| && 0 <= j < |l2| && l1[i].account == l2[j].account && (l1[i].writable || l2[j].writable) {
      assert l1[i] == Lock(l1[i].account, l1[i].writable) && l2[j] == Lock(l2[j].account, l2[j].writable);
      assert ClashOn(l1, l2, l1[i].account);
    }
  }

  // ---- The lock table ----

  datatype AccountLockers = AccountLockers(writers: set<Key>, readers: set<Key>) {
    predicate IsEmpty() {
      writers == {} && readers == {}
    }

    predicate CanLock(writable: bool) {
      if writable then IsEmpty() else writers == {}
    }

    predicate Holds(k: Key, writable: bool) {
      if writable then k in writers else k in readers
    }

    function Insert(k: Key, writable: bool): AccountLockers {
      if writable then this.(writers := writers + {k}) else this.(readers := readers + {k})
    }

    function Remove(k: Key, writable: bool): AccountLockers {
      if writable then this.(writers := writers - {k}) else this.(readers := readers - {k})
    }
  }

  type Table = map<Account, AccountLockers>

  const NO_LOCKERS := AccountLockers({}, {})

  /** The lockers of an account, a missing entry meaning none. */
  function Lockers(t: Table, a: Account): AccountLockers {
    if a in t then t[a] else NO_LOCKERS
  }

  predicate CanLockAll(t: Table, locks: seq<Lock>) {
    forall l | l in locks :: Lockers(t, l.account).CanLock(l.writable)
  }

  function WithLock(t: Table, k: Key, l: Lock): Table {
    t[l.account := Lockers(t, l.account).Insert(k, l.writable)]
  }

  /** The table after inserting the locks one by one. */
  function WithLocks(t: Table, k: Key, locks: seq<Lock>): Table {
    if locks == [] then t
    else WithLock(WithLocks(t, k, locks[..|locks| - 1]), k, locks[|locks| - 1])
  }

  /** Removes one lock, and the whole entry once nobody holds the account. */
  function WithoutLock(t: Table, k: Key, l: Lock): Table {
    var left := Lockers(t, l.account).Remove(k, l.writable);
    if left.IsEmpty() then t - {l.account} else t[l.account := left]
  }

  function WithoutLocks(t: Table, k: Key, locks: seq<Lock>): Table {
    if locks == [] then t
    else WithoutLock(WithoutLocks(t, k, locks[..|locks| - 1]), k, locks[|locks| - 1])
  }

  ghost predicate NoEmptyEntry(t: Table) {
    forall a | a in t :: !t[a].IsEmpty()
  }

  // ---- What the loops compute, account by account ----

  lemma {:induction false} WithLocksAt(t: Table, k: Key, locks: seq<Lock>, a: Account)
    ensures Lockers(WithLocks(t, k, locks), a).writers == Lockers(t, a).writers + (if Writes(locks, a) then {k} else {})
    ensures Lockers(WithLocks(t, k, locks), a).readers == Lockers(t, a).readers + (if Reads(locks, a) then {k} else {})
    ensures a in WithLocks(t, k, locks) <==> a in t || Touches(locks, a)
  {
    if locks != [] {
      WithLocksAt(t, k, locks[..|locks| - 1], a);
      assert locks == locks[..|locks| - 1] + [locks[|locks| - 1]];
    }
  }

  lemma {:induction false} WithoutLocksAt(t: Table, k: Key, locks: seq<Lock>, a: Account)
    requires NoEmptyEntry(t)
    ensures Lockers(WithoutLocks(t, k, locks), a).writers == Lockers(t, a).writers - (if Writes(locks, a) then {k} else {})
    ensures Lockers(WithoutLocks(t, k, locks), a).readers == Lockers(t, a).readers - (if Reads(locks, a) then {k} else {})
    ensures NoEmptyEntry(WithoutLocks(t, k, locks))
  {
    if locks != [] {
      WithoutLocksAt(t, k, locks[..|locks| - 1], a);
      assert locks == locks[..|locks| - 1] + [locks[|locks| - 1]];
    }
  }

  /** Tables without empty entries are equal when every account has the same lockers. */
  lemma SameLockers(t1: Table, t2: Table)
    requires NoEmptyEntry(t1) && NoEmptyEntry(t2)
    requires forall a :: Lockers(t1, a) == Lockers(t2, a)
    ensures t1 == t2
  {
    forall a ensures a in t1 <==> a in t2 {
      assert Lockers(t1, a) == Lockers(t2, a);
    }
    assert t1.Keys == t2.Keys;
    forall a | a in t1 ensures t1[a] == t2[a] {
      assert Lockers(t1, a) == Lockers(t2, a);
    }
  }

  // ---- The table as an index of the transactions that hold locks ----

  /** `t` lists exactly the locks of `holders`: no lock missing, none left over, no
      empty entry. */
  ghost predicate Exact(t: Table, holders: set<Key>, txs: map<Key, Tx>) {
    && holders <= txs.Keys
    && NoEmptyEntry(t)
    && (forall a, k :: k in Lockers(t, a).writers <==> k in holders && Writes(txs[k].locks, a))
    && (forall a, k :: k in Lockers(t, a).readers <==> k in holders && Reads(txs[k].locks, a))
  }

  lemma ExactIsUnique(t1: Table, t2: Table, holders: set<Key>, txs: map<Key, Tx>)
    requires Exact(t1, holders, txs) && Exact(t2, holders, txs)
    ensures t1 == t2
  {
    forall a ensures Lockers(t1, a) == Lockers(t2, a) {
      forall k
        ensures k in Lockers(t1, a).writers <==> k in Lockers(t2, a).writers
        ensures k in Lockers(t1, a).readers <==> k in Lockers(t2, a).readers
      {
        assert k in Lockers(t1, a).writers <==> k in holders && Writes(txs[k].locks, a);
        assert k in Lockers(t1, a).readers <==> k in holders && Reads(txs[k].locks, a);
      }
      assert Lockers(t1, a).writers == Lockers(t2, a).writers;
      assert Lockers(t1, a).readers == Lockers(t2, a).readers;
    }
    SameLockers(t1, t2);
  }

  /** The table answers "can lock" exactly when no holder conflicts. */
  lemma CanLockIffNoConflict(t: Table, holders: set<Key>, txs: map<Key, Tx>, locks: seq<Lock>)
    requires Exact(t, holders, txs)
    ensures CanLockAll(t, locks) <==> forall h | h in holders :: !Conflict(locks, txs[h].locks)
  {
    if CanLockAll(t, locks) {
      forall h | h in holders ensures !Conflict(locks, txs[h].locks) {
        forall a ensures !ClashOn(locks, txs[h].locks, a) {
          assert Writes(txs[h].locks, a) <==> h in Lockers(t, a).writers;
          assert Reads(txs[h].locks, a) <==> h in Lockers(t, a).readers;
          if Writes(locks, a) {
            assert Lockers(t, Lock(a, true).account).CanLock(true);
          }
          if Reads(locks, a) {
            assert Lockers(t, Lock(a, false).account).CanLock(false);
          }
        }
      }
    }
    if forall h | h in holders :: !Conflict(locks, txs[h].locks) {
      forall l | l in locks ensures Lockers(t, l.account).CanLock(l.writable) {
        NoConflictMeansCanLock(t, holders, txs, locks, l);
      }
    }
  }

  lemma NoConflictMeansCanLock(t: Table, holders: set<Key>, txs: map<Key, Tx>, locks: seq<Lock>, l: Lock)
    requires Exact(t, holders, txs)
    requires forall h | h in holders :: !Conflict(locks, txs[h].locks)
    requires l in locks
    ensures Lockers(t, l.account).CanLock(l.writable)
  {
    var a := l.account;
    assert l == Lock(a, l.writable);
    forall h | h in holders ensures !ClashOn(locks, txs[h].locks, a) {
      assert !Conflict(locks, txs[h].locks);
    }
    forall h
      ensures h !in Lockers(t, a).writers
      ensures l.writable ==> h !in Lockers(t, a).readers
    {
      assert h in holders ==> !ClashOn(locks, txs[h].locks, a);
    }
    assert Lockers(t, a).writers == {};
    if l.writable {
      assert Lockers(t, a).readers == {};
    }
  }

  lemma LockKeepsExact(t: Table, holders: set<Key>, txs: map<Key, Tx>, k: Key)
    requires Exact(t, holders, txs)
    requires k in txs
    ensures Exact(WithLocks(t, k, txs[k].locks), holders + {k}, txs)
  {
    var t' := WithLocks(t, k, txs[k].locks);
    forall a
      ensures Lockers(t', a).writers == Lockers(t, a).writers + (if Writes(txs[k].locks, a) then {k} else {})
      ensures Lockers(t', a).readers == Lockers(t, a).readers + (if Reads(txs[k].locks, a) then {k} else {})
      ensures a in t' <==> a in t || Touches(txs[k].locks, a)
    {
      WithLocksAt(t, k, txs[k].locks, a);
    }
    forall a | a in t' ensures !t'[a].IsEmpty() {
      assert t'[a] == Lockers(t', a);
      if Writes(txs[k].locks, a) {
        assert k in Lockers(t', a).writers;
      } else if Reads(txs[k].locks, a) {
        assert k in Lockers(t', a).readers;
      }
    }
  }

  lemma UnlockKeepsExact(t: Table, holders: set<Key>, txs: map<Key, Tx>, k: Key)
    requires Exact(t, holders, txs)
    requires k in holders
    ensures Exact(WithoutLocks(t, k, txs[k].locks), holders - {k}, txs)
  {
    var t' := WithoutLocks(t, k, txs[k].locks);
    WithoutLocksAt(t, k, txs[k].locks, 0);
    forall a
      ensures Lockers(t', a).writers == Lockers(t, a).writers - (if Writes(txs[k].locks, a) then {k} else {})
      ensures Lockers(t', a).readers == Lockers(t, a).readers - (if Reads(txs[k].locks, a) then {k} else {})
    {
      WithoutLocksAt(t, k, txs[k].locks, a);
    }
  }

  /** Unlocking undoes locking. */
  lemma UnlockUndoesLock(t: Table, holders: set<Key>, txs: map<Key, Tx>, k: Key)
    requires Exact(t, holders, txs)
    requires k in txs && k !in holders
    ensures WithoutLocks(WithLocks(t, k, txs[k].locks), k, txs[k].locks) == t
  {
    LockKeepsExact(t, holders, txs, k);
    var locked := WithLocks(t, k, txs[k].locks);
    UnlockKeepsExact(locked, holders + {k}, txs, k);
    assert holders + {k} - {k} == holders;
    ExactIsUnique(WithoutLocks(locked, k, txs[k].locks), t, holders, txs);
  }

  /** The index only depends on the locks of the holders. */
  lemma ExactFrame(t: Table, holders: set<Key>, txs: map<Key, Tx>, txs': map<Key, Tx>)
    requires Exact(t, holders, txs)
    requires holders <= txs'.Keys
    requires forall k | k in holders :: txs'[k].locks == txs[k].locks
    ensures Exact(t, holders, txs')
  {
  }
}
