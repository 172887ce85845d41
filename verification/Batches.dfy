/** Building batches of transactions greedily: each goes into the first batch that can take
    it, else it opens a new one if that pays. */
module Batches {
  import opened Orders
  import opened Locks
  import opened Pricing

  datatype TxCandidate = TxCandidate(cuLimit: nat, locks: seq<Lock>, priorityFee: nat)

  /** `locks` remembers, per account, the mode of the last lock added. */
  datatype Batch = Batch(cuUsed: nat, locks: map<Account, bool>, transactions: seq<TxCandidate>) {
    /** The units fit, and no lock to be written is on an account of the batch. */
    predicate CanAdd(tx: TxCandidate, maxCu: nat) {
      cuUsed + tx.cuLimit <= maxCu && forall i | 0 <= i < |tx.locks| && tx.locks[i].writable :: tx.locks[i].account !in locks
    }

    function Add(tx: TxCandidate): Batch {
      Batch(cuUsed + tx.cuLimit, Merged(locks, tx.locks), transactions + [tx])
    }
  }

  const EMPTY_BATCH := Batch(0, map[], [])

  function Merged(held: map<Account, bool>, locks: seq<Lock>): map<Account, bool> {
    if locks == [] then held
    else Merged(held, locks[..|locks| - 1])[locks[|locks| - 1].account := locks[|locks| - 1].writable]
  }

  /** What the engine knows when it builds batches. */
  datatype Engine = Engine(prices: Prices, base: BasePrices, threshold: real) {
    function Surplus(tx: TxCandidate): real {
      WriteLocksBound(tx.locks);
      tx.priorityFee as real - TotalCost(prices, base, tx.cuLimit, WriteLocks(tx.locks), |tx.locks| - WriteLocks(tx.locks))
    }
  }

  /** The surplus is the fee less the cost of the units and of the locks, written and read. */
  lemma SurplusIs(e: Engine, tx: TxCandidate)
    ensures var writers := |set i | 0 <= i < |tx.locks| && tx.locks[i].writable|;
      && writers <= |tx.locks|
      && e.Surplus(tx) + TotalCost(e.prices, e.base, tx.cuLimit, writers, |tx.locks| - writers) == tx.priorityFee as real
  {
    hide TotalCost;
    WriteLocksIs(tx.locks);
    WriteLocksBound(tx.locks);
  }

  // ---- What the greedy loop is for: first fit ----

  /** The first batch, from `from` on, that can take the transaction. */
  function FirstFit(tx: TxCandidate, batches: seq<Batch>, maxCu: nat, from: nat): (r: Option<nat>)
    requires from <= |batches|
    ensures r.Some? ==>
      && from <= r.value < |batches| && batches[r.value].CanAdd(tx, maxCu)
      && forall i | from <= i < r.value :: !batches[i].CanAdd(tx, maxCu)
    ensures r.None? ==> forall i | from <= i < |batches| :: !batches[i].CanAdd(tx, maxCu)
    decreases |batches| - from
  {
    if from == |batches| then None
    else if batches[from].CanAdd(tx, maxCu) then Some(from)
    else FirstFit(tx, batches, maxCu, from + 1)
  }

  /** The batch a candidate goes to, given the batches so far; none if it is refused. */
  function Choice(e: Engine, tx: TxCandidate, batches: seq<Batch>, maxCu: nat): (r: Option<nat>)
    ensures r.Some? ==> r.value <= |batches|
  {
    if FirstFit(tx, batches, maxCu, 0).Some? then FirstFit(tx, batches, maxCu, 0)
    else if tx.cuLimit <= maxCu && e.Surplus(tx) > e.threshold then Some(|batches|)
    else None
  }

  function Placed(e: Engine, tx: TxCandidate, batches: seq<Batch>, maxCu: nat): seq<Batch> {
    match Choice(e, tx, batches, maxCu)
    case None => batches
    case Some(i) => if i == |batches| then batches + [EMPTY_BATCH.Add(tx)] else batches[i := batches[i].Add(tx)]
  }

  /** The batches after the first candidates, one after the other. */
  function Packed(e: Engine, txs: seq<TxCandidate>, maxCu: nat): seq<Batch> {
    if txs == [] then [] else Placed(e, txs[|txs| - 1], Packed(e, txs[..|txs| - 1], maxCu), maxCu)
  }

  /** Where each candidate went. */
  function Choices(e: Engine, txs: seq<TxCandidate>, maxCu: nat): (cs: seq<Option<nat>>)
    ensures |cs| == |txs|
  {
    if txs == [] then []
    else Choices(e, txs[..|txs| - 1], maxCu) + [Choice(e, txs[|txs| - 1], Packed(e, txs[..|txs| - 1], maxCu), maxCu)]
  }

  // ---- The loops ----

  method CanAddTo(batch: Batch, tx: TxCandidate, maxCu: nat) returns (ok: bool)
    ensures ok <==> batch.CanAdd(tx, maxCu)
  {
    if batch.cuUsed + tx.cuLimit > maxCu {
      return false;
    }
    var i := 0;
    while i < |tx.locks|
      invariant 0 <= i <= |tx.locks|
      invariant forall j | 0 <= j < i && tx.locks[j].writable :: tx.locks[j].account !in batch.locks
    {
      var l := tx.locks[i];
      if l.account in batch.locks {
        var existing := batch.locks[l.account];
        if l.writable && existing {
          return false;  // the account is written already
        }
        if l.writable && !existing {
          return false;  // the account is read already
        }
      }
      i := i + 1;
    }
    return true;
  }

  method AddTo(batch: Batch, tx: TxCandidate) returns (r: Batch)
    ensures r == batch.Add(tx)
  {
    var locks := batch.locks;
    var i := 0;
    while i < |tx.locks|
      invariant 0 <= i <= |tx.locks|
      invariant locks == Merged(batch.locks, tx.locks[..i])
    {
      locks := locks[tx.locks[i].account := tx.locks[i].writable];
      assert tx.locks[..i + 1][..i] == tx.locks[..i];
      i := i + 1;
    }
    assert tx.locks[..|tx.locks|] == tx.locks;
    r := Batch(batch.cuUsed + tx.cuLimit, locks, batch.transactions + [tx]);
  }

  /** Looks for the best surplus, which does not depend on the batch: plain first fit. */
  method FindBestBatch(e: Engine, tx: TxCandidate, batches: seq<Batch>, maxCu: nat) returns (bestIdx: Option<nat>)
    ensures bestIdx == FirstFit(tx, batches, maxCu, 0)
  {
    bestIdx := None;
    var bestSurplus: Option<real> := None;  // None is minus infinity
    var idx := 0;
    while idx < |batches|
      invariant 0 <= idx <= |batches|
      invariant bestIdx.None? <==> bestSurplus.None?
      invariant bestSurplus.Some? ==> bestSurplus.value == e.Surplus(tx)
      invariant FirstFit(tx, batches, maxCu, 0) == if bestIdx.Some? then bestIdx else FirstFit(tx, batches, maxCu, idx)
    {
      var copy := Batch(batches[idx].cuUsed, batches[idx].locks, []);
      var ok := CanAddTo(copy, tx, maxCu);
      if ok {
        var surplus := e.Surplus(tx);
        if bestSurplus.None? || surplus > bestSurplus.value {
          bestSurplus := Some(surplus);
          bestIdx := Some(idx);
        }
      }
      idx := idx + 1;
    }
  }

  method BuildBatches(e: Engine, candidates: seq<TxCandidate>, maxCu: nat) returns (batches: seq<Batch>)
    ensures batches == Packed(e, candidates, maxCu)
  {
    batches := [];
    var i := 0;
    while i < |candidates|
      invariant 0 <= i <= |candidates|
      invariant batches == Packed(e, candidates[..i], maxCu)
    {
      var tx := candidates[i];
      var idx := FindBestBatch(e, tx, batches, maxCu);
      if idx.Some? {
        var more := AddTo(batches[idx.value], tx);
        batches := batches[idx.value := more];
      } else {
        var ok := CanAddTo(EMPTY_BATCH, tx, maxCu);
        if ok && e.Surplus(tx) > e.threshold {
          var first := AddTo(EMPTY_BATCH, tx);
          batches := batches + [first];
        }
      }
      assert candidates[..i + 1][..i] == candidates[..i];
      i := i + 1;
    }
    assert candidates[..|candidates|] == candidates;
  }

  // ---- What is in a batch ----

  function SumCu(txs: seq<TxCandidate>): nat {
    if txs == [] then 0 else SumCu(txs[..|txs| - 1]) + txs[|txs| - 1].cuLimit
  }

  /** The candidates that went to batch `b`, in input order. */
  function Chosen(txs: seq<TxCandidate>, choices: seq<Option<nat>>, b: nat): seq<TxCandidate>
    requires |choices| == |txs|
  {
    if txs == [] then []
    else
      var n := |txs| - 1;
      Chosen(txs[..n], choices[..n], b) + if choices[n] == Some(b) then [txs[n]] else []
  }

  /** Nobody writes an account that an earlier member touches. */
  ghost predicate WritersComeFirst(txs: seq<TxCandidate>) {
    forall i, j, a | 0 <= i < j < |txs| && Writes(txs[j].locks, a) :: !Touches(txs[i].locks, a)
  }

  ghost predicate SoundBatch(b: Batch, maxCu: nat) {
    && b.transactions != []
    && b.cuUsed == SumCu(b.transactions) <= maxCu
    && (forall a :: a in b.locks <==> exists i :: 0 <= i < |b.transactions| && Touches(b.transactions[i].locks, a))
    && WritersComeFirst(b.transactions)
  }

  lemma {:induction false} MergedAt(held: map<Account, bool>, locks: seq<Lock>, a: Account)
    ensures a in Merged(held, locks) <==> a in held || Touches(locks, a)
  {
    if locks != [] {
      var n := |locks| - 1;
      MergedAt(held, locks[..n], a);
      assert locks == locks[..n] + [locks[n]];
      assert locks[n] == Lock(locks[n].account, locks[n].writable);
    }
  }

  lemma AddIsSound(b: Batch, tx: TxCandidate, maxCu: nat)
    requires b == EMPTY_BATCH || SoundBatch(b, maxCu)
    requires b.CanAdd(tx, maxCu)
    ensures SoundBatch(b.Add(tx), maxCu)
  {
    var b', n := b.Add(tx), |b.transactions|;
    assert b'.transactions[..n] == b.transactions;
    forall a ensures a in b'.locks <==> exists i :: 0 <= i <= n && Touches(b'.transactions[i].locks, a) {
      MergedAt(b.locks, tx.locks, a);
      assert b'.transactions[n] == tx;
      if a in b.locks {
        var i :| 0 <= i < n && Touches(b.transactions[i].locks, a);
        assert b'.transactions[i] == b.transactions[i];
      }
    }
    forall i, a | 0 <= i < n && Writes(tx.locks, a) ensures !Touches(b.transactions[i].locks, a) {
      var k :| 0 <= k < |tx.locks| && tx.locks[k] == Lock(a, true);
      assert tx.locks[k].account !in b.locks;
    }
  }

  /** Wherever the candidate goes, that batch can take it. */
  lemma ChosenCanTake(e: Engine, tx: TxCandidate, batches: seq<Batch>, maxCu: nat)
    ensures match Choice(e, tx, batches, maxCu)
      case None => true
      case Some(i) => i <= |batches| && (if i == |batches| then EMPTY_BATCH else batches[i]).CanAdd(tx, maxCu)
  {
    hide Engine.Surplus;
  }

  lemma PlacedIsSound(e: Engine, tx: TxCandidate, before: seq<Batch>, maxCu: nat)
    requires forall b | 0 <= b < |before| :: SoundBatch(before[b], maxCu)
    ensures forall b | 0 <= b < |Placed(e, tx, before, maxCu)| :: SoundBatch(Placed(e, tx, before, maxCu)[b], maxCu)
  {
    hide SoundBatch, Choice, Batch.CanAdd, Batch.Add;
    ChosenCanTake(e, tx, before, maxCu);
    match Choice(e, tx, before, maxCu)
    case None =>
    case Some(i) => AddIsSound(if i == |before| then EMPTY_BATCH else before[i], tx, maxCu);
  }

  /** Every batch adds up to what it says, keeps within the limit, and lets nobody write
      what an earlier member touches. */
  lemma {:induction false} PackedIsSound(e: Engine, txs: seq<TxCandidate>, maxCu: nat)
    ensures forall b | 0 <= b < |Packed(e, txs, maxCu)| :: SoundBatch(Packed(e, txs, maxCu)[b], maxCu)
  {
    hide SoundBatch, Placed;
    if txs != [] {
      var n := |txs| - 1;
      PackedIsSound(e, txs[..n], maxCu);
      PlacedIsSound(e, txs[n], Packed(e, txs[..n], maxCu), maxCu);
    }
  }

  /** Each batch holds the candidates that chose it, in input order. */
  ghost predicate Follows(batches: seq<Batch>, txs: seq<TxCandidate>, choices: seq<Option<nat>>)
    requires |choices| == |txs|
  {
    && (forall b | 0 <= b < |batches| :: batches[b].transactions == Chosen(txs, choices, b))
    && (forall i | 0 <= i < |txs| && choices[i].Some? :: choices[i].value < |batches|)
    && (forall b | b >= |batches| :: Chosen(txs, choices, b) == [])
  }

  lemma PlacedIs(e: Engine, tx: TxCandidate, before: seq<Batch>, maxCu: nat)
    ensures var after, choice := Placed(e, tx, before, maxCu), Choice(e, tx, before, maxCu);
      && |after| == |before| + (if choice == Some(|before|) then 1 else 0)
      && (choice.Some? ==> choice.value < |after|)
      && forall b | 0 <= b < |after| ::
           after[b].transactions == (if b < |before| then before[b].transactions else []) + if choice == Some(b) then [tx] else []
  {
    hide Choice, Merged;
  }

  lemma ChosenStep(txs: seq<TxCandidate>, choices: seq<Option<nat>>, b: nat)
    requires |choices| == |txs| > 0
    ensures var n := |txs| - 1;
      Chosen(txs, choices, b) == Chosen(txs[..n], choices[..n], b) + if choices[n] == Some(b) then [txs[n]] else []
  {
  }

  lemma FollowsStep(e: Engine, txs: seq<TxCandidate>, choices: seq<Option<nat>>, before: seq<Batch>, maxCu: nat)
    requires |choices| == |txs| > 0
    requires var n := |txs| - 1; Follows(before, txs[..n], choices[..n]) && choices[n] == Choice(e, txs[n], before, maxCu)
    ensures Follows(Placed(e, txs[|txs| - 1], before, maxCu), txs, choices)
  {
    hide Choice, Placed, Chosen;
    var n := |txs| - 1;
    PlacedIs(e, txs[n], before, maxCu);
    forall b: nat ensures Chosen(txs, choices, b) == Chosen(txs[..n], choices[..n], b) + if choices[n] == Some(b) then [txs[n]] else [] {
      ChosenStep(txs, choices, b);
    }
    forall i | 0 <= i < n && choices[i].Some? ensures choices[i].value < |before| {
      assert choices[..n][i] == choices[i];
    }
  }

  /** Each candidate is in the one batch chosen for it or in none, and the batches keep the
      input order. */
  lemma {:induction false} PackedKeepsOrder(e: Engine, txs: seq<TxCandidate>, maxCu: nat)
    ensures forall b | 0 <= b < |Packed(e, txs, maxCu)| ::
      Packed(e, txs, maxCu)[b].transactions == Chosen(txs, Choices(e, txs, maxCu), b)
    ensures forall i, b | 0 <= i < |txs| && Choices(e, txs, maxCu)[i] == Some(b) :: b < |Packed(e, txs, maxCu)|
    ensures forall b | b >= |Packed(e, txs, maxCu)| :: Chosen(txs, Choices(e, txs, maxCu), b) == []
  {
    hide Placed, Choice, Chosen;
    if txs != [] {
      var n := |txs| - 1;
      PackedKeepsOrder(e, txs[..n], maxCu);
      assert Choices(e, txs, maxCu)[..n] == Choices(e, txs[..n], maxCu);
      FollowsStep(e, txs, Choices(e, txs, maxCu), Packed(e, txs[..n], maxCu), maxCu);
    } else {
      NothingChosen(Choices(e, txs, maxCu));
    }
  }

  lemma NothingChosen(choices: seq<Option<nat>>)
    requires |choices| == 0
    ensures forall b :: Chosen([], choices, b) == []
  {
  }

  lemma NoChoiceIff(e: Engine, tx: TxCandidate, batches: seq<Batch>, maxCu: nat)
    ensures Choice(e, tx, batches, maxCu).None? <==>
      && (forall b | 0 <= b < |batches| :: !batches[b].CanAdd(tx, maxCu))
      && (tx.cuLimit > maxCu || e.Surplus(tx) <= e.threshold)
  {
    var fit := FirstFit(tx, batches, maxCu, 0);
    if fit.Some? {
      assert batches[fit.value].CanAdd(tx, maxCu);
    }
  }

  /** Each choice is made in view of the batches that the earlier candidates left. */
  lemma {:induction false} ChoiceAt(e: Engine, txs: seq<TxCandidate>, maxCu: nat, i: nat)
    requires i < |txs|
    ensures Choices(e, txs, maxCu)[i] == Choice(e, txs[i], Packed(e, txs[..i], maxCu), maxCu)
    decreases |txs|
  {
    hide Choice, Packed;
    var n := |txs| - 1;
    if i < n {
      ChoiceAt(e, txs[..n], maxCu, i);
      assert txs[..n][..i] == txs[..i] && txs[..n][i] == txs[i];
    }
  }

  /** The surplus counts only for opening a batch: a candidate is refused exactly when no
      open batch takes it and it is too big for a batch or does not pay. */
  lemma RefusedIff(e: Engine, txs: seq<TxCandidate>, maxCu: nat, i: nat)
    requires i < |txs|
    ensures Choices(e, txs, maxCu)[i].None? <==>
      && (forall b | 0 <= b < |Packed(e, txs[..i], maxCu)| :: !Packed(e, txs[..i], maxCu)[b].CanAdd(txs[i], maxCu))
      && (txs[i].cuLimit > maxCu || e.Surplus(txs[i]) <= e.threshold)
  {
    ChoiceAt(e, txs, maxCu, i);
    NoChoiceIff(e, txs[i], Packed(e, txs[..i], maxCu), maxCu);
  }

  /** The members leave room for the units of the candidate, and none of them touches what
      it writes. */
  ghost predicate Takes(members: seq<TxCandidate>, tx: TxCandidate, maxCu: nat) {
    SumCu(members) + tx.cuLimit <= maxCu && forall i, a | 0 <= i < |members| && Writes(tx.locks, a) :: !Touches(members[i].locks, a)
  }

  lemma CanAddIff(b: Batch, tx: TxCandidate, maxCu: nat)
    requires SoundBatch(b, maxCu)
    ensures b.CanAdd(tx, maxCu) <==> Takes(b.transactions, tx, maxCu)
  {
    if Takes(b.transactions, tx, maxCu) {
      forall i | 0 <= i < |tx.locks| && tx.locks[i].writable ensures tx.locks[i].account !in b.locks {
        assert tx.locks[i] == Lock(tx.locks[i].account, true);
        assert Writes(tx.locks, tx.locks[i].account);
      }
    }
    if b.CanAdd(tx, maxCu) {
      forall i, a | 0 <= i < |b.transactions| && Writes(tx.locks, a) ensures !Touches(b.transactions[i].locks, a) {
        var k :| 0 <= k < |tx.locks| && tx.locks[k] == Lock(a, true);
        assert tx.locks[k].account !in b.locks;
      }
    }
  }

  /** Where each candidate goes, told by the members of the batches before it: to the first
      batch that takes it; to a new one if none does, it fits a batch and it pays; else to
      none. */
  lemma GreedyIs(e: Engine, txs: seq<TxCandidate>, maxCu: nat, i: nat)
    requires i < |txs|
    ensures var before := Packed(e, txs[..i], maxCu);
      var opens := txs[i].cuLimit <= maxCu && e.Surplus(txs[i]) > e.threshold;
      match Choices(e, txs, maxCu)[i]
      case Some(b) =>
        && b <= |before| && (if b < |before| then Takes(before[b].transactions, txs[i], maxCu) else opens)
        && forall c | 0 <= c < b :: !Takes(before[c].transactions, txs[i], maxCu)
      case None => !opens && forall c | 0 <= c < |before| :: !Takes(before[c].transactions, txs[i], maxCu)
  {
    var before := Packed(e, txs[..i], maxCu);
    ChoiceAt(e, txs, maxCu, i);
    PackedIsSound(e, txs[..i], maxCu);
    forall c | 0 <= c < |before| ensures before[c].CanAdd(txs[i], maxCu) <==> Takes(before[c].transactions, txs[i], maxCu) {
      CanAddIff(before[c], txs[i], maxCu);
    }
    hide Packed, SoundBatch, Takes, Batch.CanAdd, Engine.Surplus;
  }

  /** Two members of a batch conflict exactly when the later one reads what the earlier one
      writes: that is the one conflict the check lets through. */
  lemma BatchConflictsIff(e: Engine, txs: seq<TxCandidate>, maxCu: nat, b: nat, i: nat, j: nat)
    requires b < |Packed(e, txs, maxCu)| && i < j < |Packed(e, txs, maxCu)[b].transactions|
    ensures var members := Packed(e, txs, maxCu)[b].transactions;
      Conflict(members[i].locks, members[j].locks) <==> exists a :: Writes(members[i].locks, a) && Reads(members[j].locks, a)
  {
    PackedIsSound(e, txs, maxCu);
    var members := Packed(e, txs, maxCu)[b].transactions;
    assert SoundBatch(Packed(e, txs, maxCu)[b], maxCu);
    if a :| ClashOn(members[i].locks, members[j].locks, a) {
      assert Writes(members[i].locks, a) && Reads(members[j].locks, a);
    }
    if a :| Writes(members[i].locks, a) && Reads(members[j].locks, a) {
      assert ClashOn(members[i].locks, members[j].locks, a);
    }
  }

  /** No candidate reads what an earlier one writes. */
  ghost predicate NoReaderAfterWriter(txs: seq<TxCandidate>) {
    forall i, j, a | 0 <= i < j < |txs| && Writes(txs[i].locks, a) :: !Reads(txs[j].locks, a)
  }

  /** Where two members of a batch stand in the input: in the same order. */
  lemma {:induction false} ChosenInOrder(txs: seq<TxCandidate>, choices: seq<Option<nat>>, b: nat, i: nat, j: nat) returns (k: nat, l: nat)
    requires |choices| == |txs| && i < j < |Chosen(txs, choices, b)|
    ensures k < l < |txs| && txs[k] == Chosen(txs, choices, b)[i] && txs[l] == Chosen(txs, choices, b)[j]
  {
    var n := |txs| - 1;
    if j < |Chosen(txs[..n], choices[..n], b)| {
      k, l := ChosenInOrder(txs[..n], choices[..n], b, i, j);
    } else {
      k := ChosenIsCandidate(txs[..n], choices[..n], b, i);
      l := n;
    }
  }

  /** A condition on the input alone: if no candidate reads what an earlier one writes, no
      batch holds a conflict. */
  lemma BatchesWithoutConflicts(e: Engine, txs: seq<TxCandidate>, maxCu: nat)
    requires NoReaderAfterWriter(txs)
    ensures forall b | 0 <= b < |Packed(e, txs, maxCu)| :: NoConflicts(Packed(e, txs, maxCu)[b].transactions)
  {
    PackedKeepsOrder(e, txs, maxCu);
    forall b, i, j | 0 <= b < |Packed(e, txs, maxCu)| && 0 <= i < j < |Packed(e, txs, maxCu)[b].transactions|
      ensures !Conflict(Packed(e, txs, maxCu)[b].transactions[i].locks, Packed(e, txs, maxCu)[b].transactions[j].locks)
    {
      BatchConflictsIff(e, txs, maxCu, b, i, j);
      var k, l := ChosenInOrder(txs, Choices(e, txs, maxCu), b, i, j);
    }
  }

  /** A writer and then a reader of the same account do share a batch. */
  lemma ReaderJoinsWriter()
    ensures exists e: Engine, txs: seq<TxCandidate>, maxCu: nat ::
      && |Packed(e, txs, maxCu)| == 1 && Packed(e, txs, maxCu)[0].transactions == txs && |txs| == 2
      && Conflict(txs[0].locks, txs[1].locks)
  {
    var e := Engine(NO_PRICES, BasePrices(0.0, 0.0, 0.0, 0.0, 0.0), 0.0);
    var w, r := TxCandidate(1, [Lock(7, true)], 5), TxCandidate(1, [Lock(7, false)], 5);
    assert [w][..0] == [] && [w, r][..1] == [w];
    assert Packed(e, [], 10) == [];
    assert e.Surplus(w) == 5.0;
    assert Packed(e, [w], 10) == [EMPTY_BATCH.Add(w)];
    assert EMPTY_BATCH.Add(w).CanAdd(r, 10);
    assert Packed(e, [w, r], 10) == [EMPTY_BATCH.Add(w).Add(r)];
    assert ClashOn(w.locks, r.locks, 7);
    assert [w, r][0] == w && [w, r][1] == r;
    assert Conflict([w, r][0].locks, [w, r][1].locks);
  }

  lemma AloneInItsBatch(e: Engine, tx: TxCandidate, maxCu: nat)
    requires tx.cuLimit <= maxCu
    ensures Packed(e, [tx], maxCu) == if e.Surplus(tx) > e.threshold then [EMPTY_BATCH.Add(tx)] else []
  {
    hide Engine.Surplus;
    assert [tx][..0] == [];
    assert Packed(e, [], maxCu) == [];
  }

  /** A candidate that does not pay is refused when it comes first, and shares the batch of
      one that does when it comes after it. */
  lemma UnpaidJoinsPaid(e: Engine, paid: TxCandidate, unpaid: TxCandidate, maxCu: nat)
    requires e.Surplus(unpaid) <= e.threshold < e.Surplus(paid) && paid.cuLimit + unpaid.cuLimit <= maxCu
    requires forall a :: Writes(unpaid.locks, a) ==> !Touches(paid.locks, a)
    ensures Packed(e, [unpaid, paid], maxCu) == [EMPTY_BATCH.Add(paid)]
    ensures Packed(e, [paid, unpaid], maxCu) == [EMPTY_BATCH.Add(paid).Add(unpaid)]
  {
    hide Engine.Surplus;
    var first := EMPTY_BATCH.Add(paid);
    assert first.transactions == [paid] && first.cuUsed == paid.cuLimit;
    assert [unpaid, paid][..1] == [unpaid] && [paid, unpaid][..1] == [paid];
    AloneInItsBatch(e, paid, maxCu);
    AloneInItsBatch(e, unpaid, maxCu);
    forall i | 0 <= i < |unpaid.locks| && unpaid.locks[i].writable ensures unpaid.locks[i].account !in first.locks {
      assert Writes(unpaid.locks, unpaid.locks[i].account);
      MergedAt(map[], paid.locks, unpaid.locks[i].account);
    }
    assert first.CanAdd(unpaid, maxCu);
  }

  /** There is an engine and a pair of candidates that write different accounts, one of
      which pays too little, that share a batch. */
  lemma UnpaidSharesABatch()
    ensures exists e: Engine, paid: TxCandidate, unpaid: TxCandidate ::
      && 0.0 < e.Surplus(unpaid) <= e.threshold && Writes(paid.locks, 7) && Writes(unpaid.locks, 8)
      && Packed(e, [paid, unpaid], 10) == [EMPTY_BATCH.Add(paid).Add(unpaid)]
  {
    var e := Engine(Prices(1.0, 1.0, 1.0, 1.0), BasePrices(1.0, 1.0, 1.0, 1.0, 1.0), 3.0);
    var paid, unpaid := TxCandidate(1, [Lock(7, true)], 9), TxCandidate(1, [Lock(8, true)], 5);
    assert WriteLocks([Lock(7, true)]) == 1 && WriteLocks([Lock(8, true)]) == 1 by {
      assert [Lock(7, true)][..0] == [] && [Lock(8, true)][..0] == [];
    }
    assert e.Surplus(paid) == 5.0 && e.Surplus(unpaid) == 1.0;
    assert paid.locks[0] == Lock(7, true) && unpaid.locks[0] == Lock(8, true);
    UnpaidJoinsPaid(e, paid, unpaid, 10);
  }

  // ---- The first-fit bound ----

  ghost predicate NoConflicts(txs: seq<TxCandidate>) {
    forall i, j | 0 <= i < j < |txs| :: !Conflict(txs[i].locks, txs[j].locks)
  }

  ghost predicate CrowdedPairs(batches: seq<Batch>, maxCu: nat) {
    forall i, j | 0 <= i < j < |batches| :: batches[i].cuUsed + batches[j].cuUsed > maxCu
  }

  lemma {:induction false} ChosenIsCandidate(txs: seq<TxCandidate>, choices: seq<Option<nat>>, b: nat, i: nat) returns (j: nat)
    requires |choices| == |txs| && i < |Chosen(txs, choices, b)|
    ensures j < |txs| && txs[j] == Chosen(txs, choices, b)[i]
  {
    var n := |txs| - 1;
    if i < |Chosen(txs[..n], choices[..n], b)| {
      j := ChosenIsCandidate(txs[..n], choices[..n], b, i);
    } else {
      j := n;
    }
  }

  /** Without lock conflicts, a batch refuses a candidate only for its units. */
  lemma OnlyUnitsRefuse(e: Engine, txs: seq<TxCandidate>, maxCu: nat, b: nat)
    requires txs != [] && NoConflicts(txs)
    requires b < |Packed(e, txs[..|txs| - 1], maxCu)|
    ensures var batch := Packed(e, txs[..|txs| - 1], maxCu)[b];
      batch.CanAdd(txs[|txs| - 1], maxCu) <==> batch.cuUsed + txs[|txs| - 1].cuLimit <= maxCu
  {
    var n := |txs| - 1;
    var front, tx := txs[..n], txs[n];
    var batch := Packed(e, front, maxCu)[b];
    PackedIsSound(e, front, maxCu);
    PackedKeepsOrder(e, front, maxCu);
    assert SoundBatch(batch, maxCu);
    forall i | 0 <= i < |tx.locks| && tx.locks[i].writable ensures tx.locks[i].account !in batch.locks {
      var a := tx.locks[i].account;
      assert tx.locks[i] == Lock(a, true) && tx.locks[i] in tx.locks;
      if a in batch.locks {
        var k :| 0 <= k < |batch.transactions| && Touches(batch.transactions[k].locks, a);
        var j := ChosenIsCandidate(front, Choices(e, front, maxCu), b, k);
        assert ClashOn(txs[j].locks, txs[n].locks, a);
      }
    }
  }

  lemma {:induction false} PairsAreCrowded(e: Engine, txs: seq<TxCandidate>, maxCu: nat)
    requires NoConflicts(txs)
    ensures CrowdedPairs(Packed(e, txs, maxCu), maxCu)
  {
    if txs != [] {
      var n := |txs| - 1;
      PairsAreCrowded(e, txs[..n], maxCu);
      var before := Packed(e, txs[..n], maxCu);
      if Choice(e, txs[n], before, maxCu) == Some(|before|) {
        forall b | 0 <= b < |before| ensures before[b].cuUsed + txs[n].cuLimit > maxCu {
          OnlyUnitsRefuse(e, txs, maxCu, b);
        }
      }
    }
  }

  function TotalUsed(batches: seq<Batch>): nat {
    if batches == [] then 0 else TotalUsed(batches[..|batches| - 1]) + batches[|batches| - 1].cuUsed
  }

  lemma LastTwo(batches: seq<Batch>, maxCu: nat)
    requires CrowdedPairs(batches, maxCu) && |batches| >= 2
    ensures var n := |batches|; var two := batches[..n - 2];
      CrowdedPairs(two, maxCu) && TotalUsed(batches) >= TotalUsed(two) + maxCu + 1
  {
    var n := |batches|;
    var one, two := batches[..n - 1], batches[..n - 2];
    assert one[..n - 2] == two;
    assert TotalUsed(batches) == TotalUsed(two) + batches[n - 2].cuUsed + batches[n - 1].cuUsed;
  }

  lemma ThreePairs(batches: seq<Batch>, maxCu: nat)
    requires CrowdedPairs(batches, maxCu) && |batches| == 3
    ensures 3 * (maxCu + 1) <= 2 * TotalUsed(batches)
  {
    var a, b, c := batches[0].cuUsed, batches[1].cuUsed, batches[2].cuUsed;
    assert batches[..2][..1] == [batches[0]] && batches[..1] == [batches[0]];
    assert TotalUsed([batches[0]]) == a by {
      assert [batches[0]][..0] == [];
    }
    assert TotalUsed(batches[..2]) == a + b;
    assert TotalUsed(batches) == a + b + c;
  }

  /** Pair each batch with the next one around: every pair is crowded. */
  lemma {:induction false} CrowdedPairsAddUp(batches: seq<Batch>, maxCu: nat)
    requires CrowdedPairs(batches, maxCu) && |batches| >= 2
    ensures |batches| * (maxCu + 1) <= 2 * TotalUsed(batches)
    decreases |batches|
  {
    hide CrowdedPairs, TotalUsed;
    var n := |batches|;
    LastTwo(batches, maxCu);
    if n == 3 {
      ThreePairs(batches, maxCu);
    } else if n > 3 {
      CrowdedPairsAddUp(batches[..n - 2], maxCu);
      assert n * (maxCu + 1) == (n - 2) * (maxCu + 1) + 2 * (maxCu + 1);
    }
  }

  /** Without lock conflicts, first fit wastes less than half: two batches never fit into
      one, `n` batches hold more than half of `n` limits, and so any way to spread the same
      units over `k` batches needs more than half as many. */
  lemma FirstFitBound(e: Engine, txs: seq<TxCandidate>, maxCu: nat)
    requires NoConflicts(txs)
    ensures var batches := Packed(e, txs, maxCu);
      && CrowdedPairs(batches, maxCu)
      && (|batches| >= 2 ==> |batches| * maxCu < 2 * TotalUsed(batches))
      && (|batches| >= 2 ==> forall k: nat | TotalUsed(batches) <= k * maxCu :: |batches| < 2 * k)
  {
    var batches := Packed(e, txs, maxCu);
    PairsAreCrowded(e, txs, maxCu);
    hide Packed, NoConflicts, CrowdedPairs, TotalUsed;
    if |batches| >= 2 {
      CrowdedPairsAddUp(batches, maxCu);
      WasteIsLess(|batches|, TotalUsed(batches), maxCu);
      forall k: nat | TotalUsed(batches) <= k * maxCu ensures |batches| < 2 * k {
        FewerThanTwice(|batches|, TotalUsed(batches), maxCu, k);
      }
    }
  }

  lemma WasteIsLess(n: nat, used: nat, m: nat)
    requires n > 0 && n * (m + 1) <= 2 * used
    ensures n * m < 2 * used
  {
    assert n * (m + 1) == n * m + n;
  }

  lemma FewerThanTwice(n: nat, used: nat, m: nat, k: nat)
    requires n * m < 2 * used && used <= k * m
    ensures n < 2 * k
  {
    assert (2 * k) * m == 2 * (k * m);
    Cancel(n, 2 * k, m);
  }

  lemma Cancel(n: nat, k: nat, m: nat)
    ensures n * m < k * m ==> n < k
  {
    if n >= k {
      assert n * m == k * m + (n - k) * m;
    }
  }
}
