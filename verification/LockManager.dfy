/** The auction engine's lock manager: per account, one map from the keys that hold it to
    whether they write it. It refines the batch scheduler's two-set table. */
module LockManagers {
  import opened Orders
  import opened Locks
  import opened QueueDepths

  /** Who holds an account, and whether as a writer. */
  type Holders = map<Key, bool>

  type LockMap = map<Account, Holders>

  function HoldersOf(m: LockMap, a: Account): Holders {
    if a in m then m[a] else map[]
  }

  predicate CanHold(h: Holders, writable: bool) {
    if writable then h == map[] else forall k | k in h :: !h[k]
  }

  predicate CanAcquire(m: LockMap, locks: seq<Lock>) {
    forall i | 0 <= i < |locks| :: CanHold(HoldersOf(m, locks[i].account), locks[i].writable)
  }

  function AcquiredOne(m: LockMap, k: Key, l: Lock): LockMap {
    m[l.account := HoldersOf(m, l.account)[k := l.writable]]
  }

  /** The map after taking the locks one by one. */
  function Acquired(m: LockMap, k: Key, locks: seq<Lock>): LockMap {
    if locks == [] then m
    else AcquiredOne(Acquired(m, k, locks[..|locks| - 1]), k, locks[|locks| - 1])
  }

  /** Releases an account whatever way it was held; unknown accounts are skipped. */
  function ReleasedOne(m: LockMap, k: Key, a: Account): LockMap {
    if a !in m then m
    else
      var left := m[a] - {k};
      if left == map[] then m - {a} else m[a := left]
  }

  function Released(m: LockMap, k: Key, locks: seq<Lock>): LockMap {
    if locks == [] then m
    else ReleasedOne(Released(m, k, locks[..|locks| - 1]), k, locks[|locks| - 1].account)
  }

  predicate NoEmptyHolders(m: LockMap) {
    forall a | a in m :: m[a] != map[]
  }

  // ---- The two-set view ----

  function Split(h: Holders): AccountLockers {
    AccountLockers(set k | k in h && h[k], set k | k in h && !h[k])
  }

  /** The two-set table a lock map stands for. */
  function Abs(m: LockMap): Table {
    map a | a in m :: Split(m[a])
  }

  lemma SplitEmpty(h: Holders)
    ensures Split(h).IsEmpty() <==> h == map[]
  {
    if h != map[] {
      assert h.Keys != {};
      var k :| k in h;
      assert k in Split(h).writers || k in Split(h).readers;
    }
  }

  lemma AbsAt(m: LockMap, a: Account)
    ensures Lockers(Abs(m), a) == Split(HoldersOf(m, a))
    ensures NoEmptyHolders(m) ==> NoEmptyEntry(Abs(m))
  {
    forall b | b in m && m[b] != map[] ensures !Abs(m)[b].IsEmpty() {
      SplitEmpty(m[b]);
    }
  }

  lemma CanHoldIsCanLock(h: Holders, writable: bool)
    ensures CanHold(h, writable) <==> Split(h).CanLock(writable)
  {
    SplitEmpty(h);
    if !writable && Split(h).writers == {} {
      forall k | k in h ensures !h[k] {
        assert k !in Split(h).writers;
      }
    }
  }

  /** The dry run answers as the two-set table does. */
  lemma CheckCommutes(m: LockMap, locks: seq<Lock>)
    ensures CanAcquire(m, locks) <==> CanLockAll(Abs(m), locks)
  {
    forall i | 0 <= i < |locks|
      ensures CanHold(HoldersOf(m, locks[i].account), locks[i].writable)
         <==> Lockers(Abs(m), locks[i].account).CanLock(locks[i].writable)
    {
      AbsAt(m, locks[i].account);
      CanHoldIsCanLock(HoldersOf(m, locks[i].account), locks[i].writable);
    }
  }

  // ---- What the loops compute, account by account ----

  /** The mode of the last lock on the account, which is the one that stays. */
  function LastMode(locks: seq<Lock>, a: Account): Option<bool> {
    if locks == [] then None
    else if locks[|locks| - 1].account == a then Some(locks[|locks| - 1].writable)
    else LastMode(locks[..|locks| - 1], a)
  }

  lemma {:induction false} AcquiredAt(m: LockMap, k: Key, locks: seq<Lock>, a: Account)
    ensures HoldersOf(Acquired(m, k, locks), a) ==
      (if LastMode(locks, a).Some? then HoldersOf(m, a)[k := LastMode(locks, a).value] else HoldersOf(m, a))
    ensures a in Acquired(m, k, locks) <==> a in m || LastMode(locks, a).Some?
  {
    if locks != [] {
      AcquiredAt(m, k, locks[..|locks| - 1], a);
      var before := HoldersOf(Acquired(m, k, locks[..|locks| - 1]), a);
      var writable := locks[|locks| - 1].writable;
      assert before == HoldersOf(m, a) || before - {k} == HoldersOf(m, a) - {k};
      assert before[k := writable] == HoldersOf(m, a)[k := writable];
    }
  }

  lemma {:induction false} ReleasedAt(m: LockMap, k: Key, locks: seq<Lock>, a: Account)
    requires NoEmptyHolders(m)
    ensures HoldersOf(Released(m, k, locks), a) == if LastMode(locks, a).Some? then HoldersOf(m, a) - {k} else HoldersOf(m, a)
    ensures NoEmptyHolders(Released(m, k, locks))
  {
    if locks != [] {
      ReleasedAt(m, k, locks[..|locks| - 1], a);
      var h := HoldersOf(m, a);
      assert h - {k} - {k} == h - {k};
    }
  }

  lemma {:induction false} LastModeIs(locks: seq<Lock>, a: Account)
    ensures LastMode(locks, a).Some? <==> Touches(locks, a)
    ensures LastMode(locks, a).Some? ==> Lock(a, LastMode(locks, a).value) in locks
    ensures DistinctAccounts(locks) ==>
      (Writes(locks, a) <==> LastMode(locks, a) == Some(true)) && (Reads(locks, a) <==> LastMode(locks, a) == Some(false))
  {
    if locks != [] {
      var n := |locks| - 1;
      LastModeIs(locks[..n], a);
      TouchesSnoc(locks, a);
      OneModeEach(locks, a);
      assert DistinctAccounts(locks) ==> DistinctAccounts(locks[..n]) by {
        assert forall i | 0 <= i < n :: locks[..n][i] == locks[i];
      }
      hide Touches, Writes, Reads, DistinctAccounts;
    }
  }

  lemma TouchesSnoc(locks: seq<Lock>, a: Account)
    requires locks != []
    ensures var n := |locks| - 1; var l := locks[n];
      && (Writes(locks, a) <==> Writes(locks[..n], a) || l == Lock(a, true))
      && (Reads(locks, a) <==> Reads(locks[..n], a) || l == Lock(a, false))
      && (Touches(locks, a) <==> Touches(locks[..n], a) || l.account == a)
      && (forall w :: Lock(a, w) in locks[..n] ==> Lock(a, w) in locks)
      && (l.account == a ==> Lock(a, l.writable) in locks)
  {
    var n := |locks| - 1;
    assert locks == locks[..n] + [locks[n]];
    assert locks[n] == Lock(locks[n].account, locks[n].writable);
  }

  /** An account listed last is not listed before. */
  lemma OneModeEach(locks: seq<Lock>, a: Account)
    requires locks != []
    ensures DistinctAccounts(locks) && locks[|locks| - 1].account == a ==> !Writes(locks[..|locks| - 1], a) && !Reads(locks[..|locks| - 1], a)
  {
  }

  /** Lock maps without empty accounts are equal when every account has the same holders. */
  lemma SameHolders(m1: LockMap, m2: LockMap)
    requires NoEmptyHolders(m1) && NoEmptyHolders(m2)
    requires forall a :: HoldersOf(m1, a) == HoldersOf(m2, a)
    ensures m1 == m2
  {
    forall a ensures a in m1 <==> a in m2 {
      assert HoldersOf(m1, a) == HoldersOf(m2, a);
    }
    assert m1.Keys == m2.Keys;
    forall a | a in m1 ensures m1[a] == m2[a] {
      assert HoldersOf(m1, a) == HoldersOf(m2, a);
    }
  }

  lemma AcquiredHasHolders(m: LockMap, k: Key, locks: seq<Lock>)
    requires NoEmptyHolders(m)
    ensures NoEmptyHolders(Acquired(m, k, locks))
  {
    var m' := Acquired(m, k, locks);
    forall a | a in m' ensures m'[a] != map[] {
      AcquiredAt(m, k, locks, a);
      if LastMode(locks, a).Some? {
        assert k in HoldersOf(m', a);
      }
    }
  }

  /** The key holds none of the listed accounts. */
  predicate Unheld(m: LockMap, k: Key, locks: seq<Lock>) {
    forall i | 0 <= i < |locks| :: k !in HoldersOf(m, locks[i].account)
  }

  /** The key holds every listed account, in the listed way. */
  predicate HoldsAll(m: LockMap, k: Key, locks: seq<Lock>) {
    forall i | 0 <= i < |locks| ::
      k in HoldersOf(m, locks[i].account) && HoldersOf(m, locks[i].account)[k] == locks[i].writable
  }

  /** Acquiring for a key that holds none of the accounts commutes with the abstraction. */
  lemma AcquireCommutes(m: LockMap, k: Key, locks: seq<Lock>)
    requires NoEmptyHolders(m) && DistinctAccounts(locks) && Unheld(m, k, locks)
    ensures Abs(Acquired(m, k, locks)) == WithLocks(Abs(m), k, locks)
  {
    var m' := Acquired(m, k, locks);
    AcquiredHasHolders(m, k, locks);
    AbsAt(m', 0);
    AbsAt(m, 0);
    forall a
      ensures Lockers(Abs(m'), a) == Lockers(WithLocks(Abs(m), k, locks), a)
      ensures a in WithLocks(Abs(m), k, locks) ==> a in Abs(m')
    {
      AcquiredAt(m, k, locks, a);
      AbsAt(m', a);
      AbsAt(m, a);
      LastModeIs(locks, a);
      WithLocksAt(Abs(m), k, locks, a);
      SplitPut(HoldersOf(m, a), k);
    }
    forall a | a in WithLocks(Abs(m), k, locks) ensures !WithLocks(Abs(m), k, locks)[a].IsEmpty() {
      assert Lockers(Abs(m'), a) == Lockers(WithLocks(Abs(m), k, locks), a);
    }
    SameLockers(Abs(m'), WithLocks(Abs(m), k, locks));
  }

  lemma SplitPut(h: Holders, k: Key)
    ensures k !in h ==> Split(h[k := true]) == Split(h).(writers := Split(h).writers + {k})
    ensures k !in h ==> Split(h[k := false]) == Split(h).(readers := Split(h).readers + {k})
    ensures Split(h - {k}) == AccountLockers(Split(h).writers - {k}, Split(h).readers - {k})
  {
  }

  /** Releasing locks that are held as listed commutes with the abstraction. */
  lemma ReleaseCommutes(m: LockMap, k: Key, locks: seq<Lock>)
    requires NoEmptyHolders(m) && DistinctAccounts(locks) && HoldsAll(m, k, locks)
    ensures Abs(Released(m, k, locks)) == WithoutLocks(Abs(m), k, locks)
  {
    var m' := Released(m, k, locks);
    ReleasedAt(m, k, locks, 0);
    AbsAt(m', 0);
    AbsAt(m, 0);
    forall a ensures Lockers(Abs(m'), a) == Lockers(WithoutLocks(Abs(m), k, locks), a) {
      ReleasedAt(m, k, locks, a);
      AbsAt(m', a);
      AbsAt(m, a);
      LastModeIs(locks, a);
      WithoutLocksAt(Abs(m), k, locks, a);
      SplitPut(HoldersOf(m, a), k);
      if LastMode(locks, a).Some? {
        var i :| 0 <= i < |locks| && locks[i] == Lock(a, LastMode(locks, a).value);
        assert HoldersOf(m, locks[i].account)[k] == locks[i].writable;
      }
    }
    WithoutLocksAt(Abs(m), k, locks, 0);
    SameLockers(Abs(m'), WithoutLocks(Abs(m), k, locks));
  }

  /** Releasing undoes acquiring, even when the list names an account twice. */
  lemma ReleaseUndoesAcquire(m: LockMap, k: Key, locks: seq<Lock>)
    requires NoEmptyHolders(m) && Unheld(m, k, locks)
    ensures Released(Acquired(m, k, locks), k, locks) == m
  {
    var m' := Acquired(m, k, locks);
    AcquiredHasHolders(m, k, locks);
    forall a ensures HoldersOf(Released(m', k, locks), a) == HoldersOf(m, a) {
      AcquiredAt(m, k, locks, a);
      ReleasedAt(m', k, locks, a);
      LastModeIs(locks, a);
      if LastMode(locks, a).Some? {
        var i :| 0 <= i < |locks| && locks[i] == Lock(a, LastMode(locks, a).value);
        assert k !in HoldersOf(m, locks[i].account);
        assert HoldersOf(m, a)[k := LastMode(locks, a).value] - {k} == HoldersOf(m, a);
      }
    }
    ReleasedAt(m', k, locks, 0);
    SameHolders(Released(m', k, locks), m);
  }

  // ---- One writer or only readers ----

  /** Somebody holds the account: alone, or reading as everybody else does. */
  predicate LoneWriterOrReaders(h: Holders) {
    h != map[] && ((forall k | k in h :: !h[k]) || |h| == 1)
  }

  predicate Exclusive(m: LockMap) {
    forall a | a in m :: LoneWriterOrReaders(m[a])
  }

  lemma PutKeepsExclusive(h: Holders, k: Key, writable: bool)
    requires h == map[] || LoneWriterOrReaders(h)
    requires CanHold(h, writable)
    ensures LoneWriterOrReaders(h[k := writable])
  {
    assert k in h[k := writable];
    if writable {
      assert h[k := writable].Keys == {k};
    }
  }

  lemma TakeKeepsExclusive(h: Holders, k: Key)
    requires LoneWriterOrReaders(h) && h - {k} != map[]
    ensures LoneWriterOrReaders(h - {k})
  {
    if |h| == 1 {
      var j :| j in h - {k};
      OnlyKey(h, j);
      assert h - {k} == h;
    }
  }

  lemma OnlyKey(h: Holders, j: Key)
    requires |h| == 1 && j in h
    ensures h.Keys == {j}
  {
    assert |h.Keys| == 1;
    assert |h.Keys - {j}| == 0;
  }

  /** What one call of the engine does with the locks of a key. */
  datatype Call = Acquire(key: Key, locks: seq<Lock>) | Release(key: Key, locks: seq<Lock>)

  function AfterCall(m: LockMap, c: Call): LockMap {
    match c
    case Acquire(k, locks) => if CanAcquire(m, locks) then Acquired(m, k, locks) else m
    case Release(k, locks) => Released(m, k, locks)
  }

  function AfterCalls(m: LockMap, cs: seq<Call>): LockMap {
    if cs == [] then m else AfterCall(AfterCalls(m, cs[..|cs| - 1]), cs[|cs| - 1])
  }

  lemma CallKeepsExclusive(m: LockMap, c: Call)
    requires Exclusive(m)
    ensures Exclusive(AfterCall(m, c))
  {
    var m' := AfterCall(m, c);
    forall a | a in m' ensures LoneWriterOrReaders(m'[a]) {
      LastModeIs(c.locks, a);
      if c.Release? {
        ReleasedAt(m, c.key, c.locks, a);
        assert m'[a] == HoldersOf(m', a);
        if LastMode(c.locks, a).Some? {
          assert m'[a] == HoldersOf(m, a) - {c.key};
          assert HoldersOf(m, a) != map[];
          TakeKeepsExclusive(HoldersOf(m, a), c.key);
        }
      } else if CanAcquire(m, c.locks) {
        AcquiredAt(m, c.key, c.locks, a);
        assert m'[a] == HoldersOf(m', a);
        if LastMode(c.locks, a).Some? {
          var i :| 0 <= i < |c.locks| && c.locks[i] == Lock(a, LastMode(c.locks, a).value);
          assert CanHold(HoldersOf(m, c.locks[i].account), c.locks[i].writable);
          PutKeepsExclusive(HoldersOf(m, a), c.key, LastMode(c.locks, a).value);
        }
      }
    }
  }

  /** However acquiring and releasing calls follow each other, for whatever keys and lock
      lists: every account has one lone writer or only readers. */
  lemma {:induction false} CallsKeepExclusive(cs: seq<Call>)
    ensures Exclusive(AfterCalls(map[], cs))
  {
    if cs != [] {
      CallsKeepExclusive(cs[..|cs| - 1]);
      CallKeepsExclusive(AfterCalls(map[], cs[..|cs| - 1]), cs[|cs| - 1]);
    }
  }

  // ---- The manager as an index, in step with the batch scheduler's table ----

  lemma UnheldByStrangers(m: LockMap, holders: set<Key>, txs: map<Key, Tx>, k: Key, locks: seq<Lock>)
    requires Exact(Abs(m), holders, txs) && k !in holders
    ensures Unheld(m, k, locks)
  {
    forall i | 0 <= i < |locks| ensures k !in HoldersOf(m, locks[i].account) {
      var a := locks[i].account;
      AbsAt(m, a);
      assert k !in Lockers(Abs(m), a).writers && k !in Lockers(Abs(m), a).readers;
    }
  }

  lemma HeldByHolders(m: LockMap, holders: set<Key>, txs: map<Key, Tx>, k: Key)
    requires Exact(Abs(m), holders, txs) && k in holders && DistinctAccounts(txs[k].locks)
    ensures HoldsAll(m, k, txs[k].locks)
  {
    var locks := txs[k].locks;
    forall i | 0 <= i < |locks|
      ensures k in HoldersOf(m, locks[i].account) && HoldersOf(m, locks[i].account)[k] == locks[i].writable
    {
      var a := locks[i].account;
      AbsAt(m, a);
      assert locks[i] == Lock(a, locks[i].writable) && locks[i] in locks;
      assert Writes(locks, a) || Reads(locks, a);
      assert k in Lockers(Abs(m), a).writers <==> Writes(locks, a);
      assert k in Lockers(Abs(m), a).readers <==> Reads(locks, a);
    }
  }

  lemma AbsHasHolders(m: LockMap)
    requires NoEmptyEntry(Abs(m))
    ensures NoEmptyHolders(m)
  {
    forall a | a in m ensures m[a] != map[] {
      SplitEmpty(m[a]);
      assert Abs(m)[a] == Split(m[a]);
    }
  }

  /** Granted or not, an acquire keeps the index exact: the key joins the holders exactly
      when it conflicts with none of them. */
  lemma AcquireKeepsExact(m: LockMap, holders: set<Key>, txs: map<Key, Tx>, k: Key)
    requires Exact(Abs(m), holders, txs) && k in txs && k !in holders && DistinctAccounts(txs[k].locks)
    ensures CanAcquire(m, txs[k].locks) <==> forall h | h in holders :: !Conflict(txs[k].locks, txs[h].locks)
    ensures Exact(Abs(Acquired(m, k, txs[k].locks)), holders + {k}, txs)
  {
    CheckCommutes(m, txs[k].locks);
    CanLockIffNoConflict(Abs(m), holders, txs, txs[k].locks);
    AbsHasHolders(m);
    UnheldByStrangers(m, holders, txs, k, txs[k].locks);
    AcquireCommutes(m, k, txs[k].locks);
    LockKeepsExact(Abs(m), holders, txs, k);
  }

  /** Releasing takes the key's locks out of the index, if it had any. */
  lemma ReleaseKeepsExact(m: LockMap, holders: set<Key>, txs: map<Key, Tx>, k: Key)
    requires Exact(Abs(m), holders, txs) && k in txs && DistinctAccounts(txs[k].locks)
    ensures Exact(Abs(Released(m, k, txs[k].locks)), holders - {k}, txs)
    ensures k !in holders ==> Released(m, k, txs[k].locks) == m
  {
    AbsHasHolders(m);
    if k in holders {
      HeldByHolders(m, holders, txs, k);
      ReleaseCommutes(m, k, txs[k].locks);
      UnlockKeepsExact(Abs(m), holders, txs, k);
    } else {
      UnheldByStrangers(m, holders, txs, k, txs[k].locks);
      ReleaseOfNothing(m, k, txs[k].locks);
      assert holders - {k} == holders;
    }
  }

  lemma ReleaseOfNothing(m: LockMap, k: Key, locks: seq<Lock>)
    requires NoEmptyHolders(m) && Unheld(m, k, locks)
    ensures Released(m, k, locks) == m
  {
    forall a ensures HoldersOf(Released(m, k, locks), a) == HoldersOf(m, a) {
      ReleasedAt(m, k, locks, a);
      LastModeIs(locks, a);
      if LastMode(locks, a).Some? {
        var i :| 0 <= i < |locks| && locks[i] == Lock(a, LastMode(locks, a).value);
        assert k !in HoldersOf(m, locks[i].account);
        assert HoldersOf(m, a) - {k} == HoldersOf(m, a);
      }
    }
    ReleasedAt(m, k, locks, 0);
    SameHolders(Released(m, k, locks), m);
  }

  /** No two holders conflict. */
  ghost predicate Compatible(holders: set<Key>, txs: map<Key, Tx>) {
    forall j, k | j in holders && k in holders && j != k :: j in txs && k in txs && !Conflict(txs[j].locks, txs[k].locks)
  }

  lemma ConflictIsMutual(l1: seq<Lock>, l2: seq<Lock>)
    ensures Conflict(l1, l2) <==> Conflict(l2, l1)
  {
    assert forall a :: ClashOn(l1, l2, a) <==> ClashOn(l2, l1, a);
  }

  lemma CompatibleGrows(holders: set<Key>, txs: map<Key, Tx>, k: Key)
    requires Compatible(holders, txs) && k in txs && holders <= txs.Keys
    requires forall h | h in holders :: !Conflict(txs[k].locks, txs[h].locks)
    ensures Compatible(holders + {k}, txs)
  {
    forall h | h in holders ensures !Conflict(txs[h].locks, txs[k].locks) {
      ConflictIsMutual(txs[k].locks, txs[h].locks);
    }
  }

  // ---- The manager object ----

  class LockManager {
    var accountLocks: LockMap
    var queueDepths: Depths

    constructor ()
      ensures accountLocks == map[] && queueDepths == map[]
    {
      accountLocks, queueDepths := map[], map[];
    }

    /** Whether all locks can be granted; changes nothing. */
    method TryAcquire(locks: seq<Lock>) returns (ok: bool)
      ensures ok <==> CanAcquire(accountLocks, locks)
    {
      var i := 0;
      while i < |locks|
        invariant 0 <= i <= |locks|
        invariant CanAcquire(accountLocks, locks[..i])
      {
        var l := locks[i];
        if l.account in accountLocks && !CanHold(accountLocks[l.account], l.writable) {
          assert !CanHold(HoldersOf(accountLocks, locks[i].account), locks[i].writable);
          return false;
        }
        i := i + 1;
      }
      return true;
    }

    method Acquire(key: Key, locks: seq<Lock>)
      modifies `accountLocks
      ensures accountLocks == Acquired(old(accountLocks), key, locks)
    {
      var i := 0;
      while i < |locks|
        invariant 0 <= i <= |locks|
        invariant accountLocks == Acquired(old(accountLocks), key, locks[..i])
      {
        var l := locks[i];
        var holders := if l.account in accountLocks then accountLocks[l.account] else map[];
        accountLocks := accountLocks[l.account := holders[key := l.writable]];
        assert locks[..i + 1][..i] == locks[..i];
        i := i + 1;
      }
      assert locks[..|locks|] == locks;
    }

    method Release(key: Key, locks: seq<Lock>)
      modifies `accountLocks
      ensures accountLocks == Released(old(accountLocks), key, locks)
    {
      var i := 0;
      while i < |locks|
        invariant 0 <= i <= |locks|
        invariant accountLocks == Released(old(accountLocks), key, locks[..i])
      {
        var a := locks[i].account;
        if a in accountLocks {
          var left := accountLocks[a] - {key};
          if left == map[] {
            accountLocks := accountLocks - {a};
          } else {
            accountLocks := accountLocks[a := left];
          }
        }
        assert locks[..i + 1][..i] == locks[..i];
        i := i + 1;
      }
      assert locks[..|locks|] == locks;
    }

    /** Takes all the locks, or none if some cannot be granted. */
    method AcquireLocks(key: Key, locks: seq<Lock>) returns (granted: bool)
      modifies `accountLocks
      ensures granted <==> CanAcquire(old(accountLocks), locks)
      ensures accountLocks == AfterCall(old(accountLocks), Call.Acquire(key, locks))
    {
      granted := TryAcquire(locks);
      if granted {
        Acquire(key, locks);
      }
    }

    // ---- Queue depths ----

    method QueueTransaction(locks: seq<Lock>)
      requires Remembered(queueDepths)
      modifies `queueDepths
      ensures queueDepths == Queued(old(queueDepths), locks)
      ensures Remembered(queueDepths) && Deeper(old(queueDepths), queueDepths)
    {
      var i := 0;
      while i < |locks|
        invariant 0 <= i <= |locks|
        invariant queueDepths == Queued(old(queueDepths), locks[..i])
      {
        var a := locks[i].account;
        queueDepths := queueDepths[a := (if a in queueDepths then queueDepths[a] else 0.0) + 1.0];
        assert locks[..i + 1][..i] == locks[..i];
        i := i + 1;
      }
      assert locks[..|locks|] == locks;
      QueueingRemembers(old(queueDepths), locks);
      QueueingDeepens(old(queueDepths), locks);
    }

    /** Undoes a queueing of the same locks that nothing came after. */
    method DequeueTransaction(locks: seq<Lock>)
      requires Remembered(queueDepths)
      modifies `queueDepths
      ensures queueDepths == Dequeued(old(queueDepths), locks) && Remembered(queueDepths)
      ensures forall d | Remembered(d) && old(queueDepths) == Queued(d, locks) :: queueDepths == d
    {
      var i := 0;
      while i < |locks|
        invariant 0 <= i <= |locks|
        invariant queueDepths == Dequeued(old(queueDepths), locks[..i])
      {
        var a := locks[i].account;
        if a in queueDepths {
          var depth := MaxReal(queueDepths[a], 0.0) - 1.0;
          if depth < MIN_DEPTH {
            queueDepths := queueDepths - {a};
          } else {
            queueDepths := queueDepths[a := depth];
          }
        }
        assert locks[..i + 1][..i] == locks[..i];
        i := i + 1;
      }
      assert locks[..|locks|] == locks;
      DequeueingRemembers(old(queueDepths), locks);
      forall d | Remembered(d) && old(queueDepths) == Queued(d, locks) ensures queueDepths == d {
        DequeueUndoesQueue(d, locks);
      }
    }

    /** `factor` is what is left after the elapsed time. */
    method Decay(factor: real)
      requires Remembered(queueDepths) && 0.0 <= factor <= 1.0
      modifies `queueDepths
      ensures queueDepths == Decayed(old(queueDepths), factor)
      ensures Remembered(queueDepths) && Deeper(queueDepths, old(queueDepths))
    {
      DecayLightens(queueDepths, factor);
      queueDepths := map a | a in queueDepths && queueDepths[a] * factor > MIN_DEPTH :: queueDepths[a] * factor;
    }
  }
}
