/** The orders the scheduler's containers rely on: the lexicographic order of
    `PriorityId`, the derived order of `BundleId`, and the first and last element
    of an ordered set under each. */
module Orders {

  /** Names a transaction held by the bridge. */
  type Key = nat

  datatype Option<+T> = None | Some(value: T)

  datatype Ordering = Less | Equal | Greater {
    /** Falls through to `next` only when this comparison is a tie. */
    function Then(next: Ordering): Ordering {
      if Equal? then next else this
    }
  }

  /** What the scheduler knows about a transaction; every container holds these. */
  datatype PriorityId = PriorityId(priority: nat, cost: nat, key: Key)

  /** A bundle waiting to be scheduled. */
  datatype BundleId = BundleId(priority: nat, cost: nat, receivedAt: nat, keys: seq<Key>)

  function CompareNat(a: nat, b: nat): Ordering {
    if a < b then Less else if a == b then Equal else Greater
  }

  /** Strict order on ids: by priority, then cost, then key. */
  predicate Below(a: PriorityId, b: PriorityId) {
    || a.priority < b.priority
    || (a.priority == b.priority && a.cost < b.cost)
    || (a.priority == b.priority && a.cost == b.cost && a.key < b.key)
  }

  function Compare(a: PriorityId, b: PriorityId): (o: Ordering)
    ensures o == Less <==> Below(a, b)
    ensures o == Equal <==> a == b
    ensures o == Greater <==> Below(b, a)
    ensures a.priority < b.priority ==> o == Less
    ensures a.priority == b.priority && a.cost < b.cost ==> o == Less
    ensures a.priority == b.priority && a.cost == b.cost && a.key < b.key ==> o == Less
  {
    CompareNat(a.priority, b.priority)
      .Then(CompareNat(a.cost, b.cost))
      .Then(CompareNat(a.key, b.key))
  }

  predicate AtMost(a: PriorityId, b: PriorityId) {
    a == b || Below(a, b)
  }

  /** Strict lexicographic order on key lists; a proper prefix comes first. */
  predicate KeysBelow(a: seq<Key>, b: seq<Key>) {
    b != [] && (a == [] || a[0] < b[0] || (a[0] == b[0] && KeysBelow(a[1..], b[1..])))
  }

  /** The lists agree before position `i`, and there the first one ends or has less. */
  ghost predicate LessAt(a: seq<Key>, b: seq<Key>, i: nat) {
    i <= |a| && i < |b| && a[..i] == b[..i] && (i == |a| || a[i] < b[i])
  }

  lemma SameStart(a: seq<Key>, b: seq<Key>)
    ensures forall i: nat | i > 0 && LessAt(a, b, i) :: a[0] == b[0]
  {
    forall i: nat | i > 0 && LessAt(a, b, i) ensures a[0] == b[0] {
      assert a[..i][0] == b[..i][0];
    }
  }

  /** The first difference decides, or the end of the shorter list. */
  lemma {:induction false} KeysBelowIff(a: seq<Key>, b: seq<Key>)
    ensures KeysBelow(a, b) <==> exists i: nat :: LessAt(a, b, i)
  {
    if b != [] && (a == [] || a[0] < b[0]) {
      assert LessAt(a, b, 0);
    } else if b != [] && a[0] == b[0] {
      KeysBelowIff(a[1..], b[1..]);
      if i: nat :| LessAt(a[1..], b[1..], i) {
        assert a[..i + 1] == [a[0]] + a[1..][..i] && b[..i + 1] == [b[0]] + b[1..][..i];
        assert LessAt(a, b, i + 1);
      }
      if i: nat :| LessAt(a, b, i) {
        assert i > 0;
        assert a[1..][..i - 1] == a[..i][1..] && b[1..][..i - 1] == b[..i][1..];
        assert LessAt(a[1..], b[1..], i - 1);
      }
    } else {
      SameStart(a, b);
    }
  }

  predicate BundleBelow(a: BundleId, b: BundleId) {
    || a.priority < b.priority
    || (a.priority == b.priority && a.cost < b.cost)
    || (a.priority == b.priority && a.cost == b.cost && a.receivedAt < b.receivedAt)
    || (a.priority == b.priority && a.cost == b.cost && a.receivedAt == b.receivedAt && KeysBelow(a.keys, b.keys))
  }

  // ---- KeysBelow and BundleBelow are strict total orders ----

  lemma {:induction false} KeysTotal(a: seq<Key>, b: seq<Key>)
    ensures a == b || KeysBelow(a, b) || KeysBelow(b, a)
    ensures !(KeysBelow(a, b) && KeysBelow(b, a))
    ensures !KeysBelow(a, a)
  {
    if a != [] && b != [] {
      KeysTotal(a[1..], b[1..]);
      assert a == [a[0]] + a[1..] && b == [b[0]] + b[1..];
    }
    if a != [] {
      KeysTotal(a[1..], a[1..]);
    }
  }

  lemma {:induction false} KeysTransitive(a: seq<Key>, b: seq<Key>, c: seq<Key>)
    requires KeysBelow(a, b) && KeysBelow(b, c)
    ensures KeysBelow(a, c)
  {
    if a != [] && a[0] == b[0] && b[0] == c[0] {
      KeysTransitive(a[1..], b[1..], c[1..]);
    }
  }

  lemma BundleOrder(a: BundleId, b: BundleId)
    ensures a == b || BundleBelow(a, b) || BundleBelow(b, a)
    ensures !(BundleBelow(a, b) && BundleBelow(b, a))
  {
    KeysTotal(a.keys, b.keys);
  }

  /** Bundles go by priority, then cost, then time of arrival, then keys. */
  lemma BundleOrderIs(a: BundleId, b: BundleId)
    ensures a.priority < b.priority ==> BundleBelow(a, b)
    ensures a.priority == b.priority && a.cost < b.cost ==> BundleBelow(a, b)
    ensures a.priority == b.priority && a.cost == b.cost && a.receivedAt < b.receivedAt ==> BundleBelow(a, b)
    ensures a.priority == b.priority && a.cost == b.cost && a.receivedAt == b.receivedAt ==>
      (BundleBelow(a, b) <==> exists i: nat :: LessAt(a.keys, b.keys, i))
  {
    KeysBelowIff(a.keys, b.keys);
  }

  lemma BundleTransitive(a: BundleId, b: BundleId, c: BundleId)
    requires BundleBelow(a, b) && BundleBelow(b, c)
    ensures BundleBelow(a, c)
  {
    if KeysBelow(a.keys, b.keys) && KeysBelow(b.keys, c.keys) {
      KeysTransitive(a.keys, b.keys, c.keys);
    }
  }

  // ---- Ends of an ordered set ----

  predicate IsLast(s: set<PriorityId>, m: PriorityId) {
    m in s && forall x | x in s :: AtMost(x, m)
  }

  predicate IsFirst(s: set<PriorityId>, m: PriorityId) {
    m in s && forall x | x in s :: AtMost(m, x)
  }

  predicate IsLastBundle(s: set<BundleId>, m: BundleId) {
    m in s && forall x | x in s :: x == m || BundleBelow(x, m)
  }

  predicate IsFirstBundle(s: set<BundleId>, m: BundleId) {
    m in s && forall x | x in s :: x == m || BundleBelow(m, x)
  }

  lemma {:induction false} EndsExist(s: set<PriorityId>)
    requires s != {}
    ensures exists m :: IsLast(s, m)
    ensures exists m :: IsFirst(s, m)
    decreases |s|
  {
    var x :| x in s;
    var rest := s - {x};
    if rest == {} {
      assert s == {x};
      assert IsLast(s, x) && IsFirst(s, x);
    } else {
      EndsExist(rest);
      var hi :| IsLast(rest, hi);
      var lo :| IsFirst(rest, lo);
      assert forall y | y in s :: y == x || y in rest;
      assert IsLast(s, if Below(x, hi) then hi else x);
      assert IsFirst(s, if Below(lo, x) then lo else x);
    }
  }

  lemma {:induction false} BundleEndsExist(s: set<BundleId>)
    requires s != {}
    ensures exists m :: IsLastBundle(s, m)
    ensures exists m :: IsFirstBundle(s, m)
    decreases |s|
  {
    var x :| x in s;
    var rest := s - {x};
    assert forall y | y in s :: y == x || y in rest;
    if rest == {} {
      assert IsLastBundle(s, x) && IsFirstBundle(s, x);
    } else {
      BundleEndsExist(rest);
      var hi :| IsLastBundle(rest, hi);
      var lo :| IsFirstBundle(rest, lo);
      BundleOrder(x, hi);
      BundleOrder(x, lo);
      forall y | y in rest && BundleBelow(y, hi) && BundleBelow(hi, x) ensures BundleBelow(y, x) {
        BundleTransitive(y, hi, x);
      }
      forall y | y in rest && BundleBelow(lo, y) && BundleBelow(x, lo) ensures BundleBelow(x, y) {
        BundleTransitive(x, lo, y);
      }
      assert IsLastBundle(s, if BundleBelow(x, hi) then hi else x);
      assert IsFirstBundle(s, if BundleBelow(lo, x) then lo else x);
    }
  }

  lemma BundleEndsUnique(s: set<BundleId>)
    ensures forall m, n | IsLastBundle(s, m) && IsLastBundle(s, n) :: m == n
    ensures forall m, n | IsFirstBundle(s, m) && IsFirstBundle(s, n) :: m == n
  {
    forall m, n | m in s && n in s ensures !(BundleBelow(m, n) && BundleBelow(n, m)) {
      BundleOrder(m, n);
    }
  }

  /** The greatest element, as `BTreeSet::last` and `MinMaxHeap::peek_max` give it. */
  ghost function Last(s: set<PriorityId>): (m: PriorityId)
    requires s != {}
    ensures IsLast(s, m)
  {
    EndsExist(s);
    var m :| IsLast(s, m);
    m
  }

  ghost function First(s: set<PriorityId>): (m: PriorityId)
    requires s != {}
    ensures IsFirst(s, m)
  {
    EndsExist(s);
    var m :| IsFirst(s, m);
    m
  }

  ghost function LastBundle(s: set<BundleId>): (m: BundleId)
    requires s != {}
    ensures IsLastBundle(s, m)
  {
    BundleEndsExist(s);
    var m :| IsLastBundle(s, m);
    m
  }

  ghost function FirstBundle(s: set<BundleId>): (m: BundleId)
    requires s != {}
    ensures IsFirstBundle(s, m)
  {
    BundleEndsExist(s);
    var m :| IsFirstBundle(s, m);
    m
  }

  lemma FirstIsIn(s: set<PriorityId>)
    requires s != {}
    ensures First(s) in s
  {
  }

  lemma FirstBundleIsIn(s: set<BundleId>)
    requires s != {}
    ensures FirstBundle(s) in s
  {
  }

  lemma LastBundleIsIn(s: set<BundleId>)
    requires s != {}
    ensures LastBundle(s) in s
  {
  }

  /** The greatest element strictly below `c`: `range(..c).next_back()`. */
  ghost function LastBelow(s: set<PriorityId>, c: PriorityId): (r: Option<PriorityId>)
    ensures r.Some? ==> r.value in s && Below(r.value, c) && forall x | x in s && Below(x, c) :: AtMost(x, r.value)
    ensures r.None? ==> forall x | x in s :: !Below(x, c)
  {
    var under := set x | x in s && Below(x, c);
    if under == {} then
      assert forall x | x in s && Below(x, c) :: x in under;
      None
    else
      assert forall x | x in s && Below(x, c) :: x in under;
      Some(Last(under))
  }

  // ---- The same ends, as container calls ----

  method PeekLast(s: set<PriorityId>) returns (m: PriorityId)
    requires s != {}
    ensures m == Last(s)
  {
    EndsExist(s);
    m :| m in s && forall x | x in s :: AtMost(x, m);
    assert IsLast(s, m);
  }

  method PeekFirst(s: set<PriorityId>) returns (m: PriorityId)
    requires s != {}
    ensures m == First(s)
  {
    EndsExist(s);
    m :| m in s && forall x | x in s :: AtMost(m, x);
    assert IsFirst(s, m);
  }

  method PeekLastBundle(s: set<BundleId>) returns (m: BundleId)
    requires s != {}
    ensures m == LastBundle(s)
  {
    BundleEndsExist(s);
    BundleEndsUnique(s);
    m :| m in s && forall x | x in s :: x == m || BundleBelow(x, m);
    assert IsLastBundle(s, m);
  }

  method PeekFirstBundle(s: set<BundleId>) returns (m: BundleId)
    requires s != {}
    ensures m == FirstBundle(s)
  {
    BundleEndsExist(s);
    BundleEndsUnique(s);
    m :| m in s && forall x | x in s :: x == m || BundleBelow(m, x);
    assert IsFirstBundle(s, m);
  }

  method PeekBelow(s: set<PriorityId>, c: PriorityId) returns (r: Option<PriorityId>)
    ensures r == LastBelow(s, c)
  {
    var under := set x | x in s && Below(x, c);
    assert forall x | x in s && Below(x, c) :: x in under;
    if under == {} {
      r := None;
    } else {
      var m := PeekLast(under);
      r := Some(m);
    }
  }
}
