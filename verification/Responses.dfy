/** What the workers answer, and what handling an answer relies on. */
module Responses {
  import opened Orders
  import opened Locks
  import opened Protocol
  import opened Invariant

  datatype TxDecision = Keep | Discard

  datatype CheckFailure = ParseOrSanitize | AccountResolution | StatusCheck

  /** The flags of a check response that matter, and whether a resolved key is filtered. */
  datatype CheckResponse = CheckResponse(parsingFailed: bool, resolveFailed: bool, statusFailed: bool, keyFiltered: bool) {
    predicate AtMostOneFailure() {
      !(parsingFailed && resolveFailed) && !(parsingFailed && statusFailed) && !(resolveFailed && statusFailed)
    }

    function Verdict(): CheckVerdict {
      if parsingFailed || resolveFailed || statusFailed then CheckFailed
      else if keyFiltered then CheckFiltered
      else CheckOk
    }
  }

  datatype WorkerResponse =
    | Checked(meta: PriorityId, rep: CheckResponse)
    | Ran(meta: PriorityId, reason: Reason, executionSlot: Slot)
    | NotRun(meta: PriorityId)

  function EventOf(r: WorkerResponse): Event {
    match r
    case Checked(m, rep) => CheckReply(m, rep.Verdict())
    case Ran(m, reason, slot) => ExecuteReply(m, Executed(reason, slot))
    case NotRun(m) => ExecuteReply(m, Unprocessed)
  }

  function Events(rs: seq<WorkerResponse>): seq<Event> {
    if rs == [] then [] else [EventOf(rs[0])] + Events(rs[1..])
  }

  /** One event for each response, in order. */
  lemma {:induction false} EventsAre(rs: seq<WorkerResponse>)
    ensures |Events(rs)| == |rs| && forall i | 0 <= i < |rs| :: Events(rs)[i] == EventOf(rs[i])
  {
    if rs != [] {
      EventsAre(rs[1..]);
      forall i | 0 <= i < |rs| ensures Events(rs)[i] == EventOf(rs[i]) {
        assert i > 0 ==> rs[1..][i - 1] == rs[i];
      }
    }
  }

  /** The response answers a message that is out. */
  ghost predicate Answers(w: World, r: WorkerResponse) {
    match r
    case Checked(m, rep) => m in w.checks && rep.AtMostOneFailure()
    case Ran(m, _, _) => m in w.executes
    case NotRun(m) => m in w.executes
  }

  /** Each response answers a message that is out once the ones before are handled. */
  ghost predicate Deliverable(w: World, rs: seq<WorkerResponse>)
    decreases |rs|
  {
    rs == [] || (Answers(w, rs[0]) && (Enabled(w, EventOf(rs[0])) ==> Deliverable(Apply(w, EventOf(rs[0])), rs[1..])))
  }

  /** If none before it failed, the response answers a message that is still out. */
  ghost predicate InTurn(w: World, rs: seq<WorkerResponse>, i: nat)
    requires i < |rs|
  {
    Possible(w, Events(rs[..i])) ==>
      var now := Run(w, Events(rs[..i]));
      if rs[i].Checked? then rs[i].meta in now.checks && rs[i].rep.AtMostOneFailure() else rs[i].meta in now.executes
  }

  lemma FirstInTurn(w: World, rs: seq<WorkerResponse>)
    requires rs != []
    ensures InTurn(w, rs, 0) <==> Answers(w, rs[0])
  {
    assert rs[..0] == [];
    assert Possible(w, []) && Run(w, []) == w;
    AnswersIs(w, rs[0]);
  }

  lemma LaterInTurn(w: World, rs: seq<WorkerResponse>, i: nat)
    requires i + 1 < |rs|
    ensures InTurn(w, rs, i + 1) <==> (Enabled(w, EventOf(rs[0])) ==> InTurn(Apply(w, EventOf(rs[0])), rs[1..], i))
  {
    hide Enabled, Apply, CheckResponse.AtMostOneFailure;
    assert rs[..i + 1][1..] == rs[1..][..i] && rs[1..][i] == rs[i + 1];
    assert Events(rs[..i + 1]) == [EventOf(rs[0])] + Events(rs[1..][..i]);
  }

  /** The responses can come in this order exactly when each, as long as none before it
      failed, answers a check or an execute message that is still out. */
  lemma {:induction false} DeliverableIff(w: World, rs: seq<WorkerResponse>)
    ensures Deliverable(w, rs) <==> forall i | 0 <= i < |rs| :: InTurn(w, rs, i)
    decreases |rs|
  {
    hide Enabled, Apply, Answers, InTurn;
    if rs != [] {
      FirstInTurn(w, rs);
      if Enabled(w, EventOf(rs[0])) {
        var w' := Apply(w, EventOf(rs[0]));
        DeliverableIff(w', rs[1..]);
        if forall i | 0 <= i < |rs| :: InTurn(w, rs, i) {
          forall j | 0 <= j < |rs| - 1 ensures InTurn(w', rs[1..], j) {
            LaterInTurn(w, rs, j);
          }
        }
      }
      if Deliverable(w, rs) {
        forall i | 0 < i < |rs| ensures InTurn(w, rs, i) {
          LaterInTurn(w, rs, i - 1);
        }
      }
    }
  }

  lemma AnswersIs(w: World, r: WorkerResponse)
    ensures Answers(w, r) <==>
      if r.Checked? then r.meta in w.checks && r.rep.AtMostOneFailure() else r.meta in w.executes
  {
  }

  lemma AnsweredIsKnown(w: World, r: WorkerResponse)
    requires Inv(w) && Answers(w, r)
    ensures IsMeta(w, r.meta)
    ensures forall x | x in w.checked :: x.key in w.txs
  {
    assert KnownChecks(w.txs, w.checks) && Known(w.txs, w.checked) && OneExecuteEach(w.txs, w.executing, w.executes);
    hide Inv, Known;
    assert forall x | x in w.checked :: x.key in w.txs by {
      CheckedAreKnown(w);
    }
  }

  lemma CheckedAreKnown(w: World)
    requires Inv(w)
    ensures forall x | x in w.checked :: x.key in w.txs
  {
  }

  lemma CheckEnabledIff(w: World, m: PriorityId, verdict: CheckVerdict)
    requires m in w.checks && IsMeta(w, m) && forall x | x in w.checked :: x.key in w.txs
    ensures Enabled(w, CheckReply(m, verdict)) <==> (NeedsEviction(w, m, verdict) ==> w.checked != {})
  {
    hide NeedsEviction, Free;
  }

  lemma ExecuteEnabled(w: World, m: PriorityId, outcome: Outcome)
    requires m in w.executes && IsMeta(w, m) && forall x | x in w.checked :: x.key in w.txs
    ensures Enabled(w, ExecuteReply(m, outcome))
  {
    hide Free;
  }

  /** Handling a response that answers a message can only fail in the eviction of a first
      check that passed. */
  lemma AnswerSucceedsIff(w: World, r: WorkerResponse)
    requires Inv(w) && Answers(w, r)
    ensures IsMeta(w, r.meta)
    ensures Enabled(w, EventOf(r)) <==> (r.Checked? && NeedsEviction(w, r.meta, r.rep.Verdict()) ==> w.checked != {})
  {
    hide Inv, Enabled, NeedsEviction;
    AnsweredIsKnown(w, r);
    match r
    case Checked(m, rep) => CheckEnabledIff(w, m, rep.Verdict());
    case Ran(m, reason, slot) => ExecuteEnabled(w, m, Executed(reason, slot));
    case NotRun(m) => ExecuteEnabled(w, m, Unprocessed);
  }

  /** What handling an execute response relies on. */
  lemma BeforeExecute(w: World, m: PriorityId)
    requires Inv(w) && m in w.executes
    ensures m.key in w.executing && m.key in w.txs && DistinctAccounts(w.txs[m.key].locks)
    ensures m !in w.checked && m !in w.deferred
    ensures Known(w.txs, w.checked)
    ensures forall x | x in w.checked :: x.key in w.txs && x.key !in w.executing
  {
  }

  lemma OnCheckCases(w: World, m: PriorityId, verdict: CheckVerdict)
    requires IsMeta(w, m)
    requires NeedsEviction(w, m, verdict) ==> w.checked != {} && First(w.checked).key in w.txs
    ensures var w1 := w.(checks := w.checks - multiset{m});
      Protocol.OnCheck(w, m, verdict) ==
        if m.key in w.executing || m in w.deferred then w1
        else if verdict == CheckFailed then Drop(w1.(checked := w.checked - {m}), m.key)
        else if m in w.checked then w1
        else if verdict == CheckFiltered then Drop(w1, m.key)
        else EvictIfFull(w1).(checked := EvictIfFull(w1).checked + {m})
  {
  }

  /** Handling the answer to a check, told by the flags of the answer. */
  lemma CheckIs(w: World, m: PriorityId, rep: CheckResponse)
    requires Inv(w) && m in w.checks && IsMeta(w, m)
    ensures forall x | x in w.checked :: x.key in w.txs && x.key !in w.executing && (x.key == m.key ==> x == m)
    ensures var e := CheckReply(m, rep.Verdict());
      var w1 := w.(checks := w.checks - multiset{m});
      if m.key in w.executing || m in w.deferred then Enabled(w, e) && Apply(w, e) == w1
      else if rep.parsingFailed || rep.resolveFailed || rep.statusFailed then
        Enabled(w, e) && Apply(w, e) == Drop(w1.(checked := w.checked - {m}), m.key)
      else if m in w.checked then Enabled(w, e) && Apply(w, e) == w1
      else if rep.keyFiltered then Enabled(w, e) && Apply(w, e) == Drop(w1, m.key)
      else
        && (Enabled(w, e) <==> (PendingLen(w) >= w.cfg.checkedCapacity ==> w.checked != {}))
        && (Enabled(w, e) ==> Apply(w, e) == EvictIfFull(w1).(checked := EvictIfFull(w1).checked + {m}))
  {
    hide Inv, EvictIfFull, First, Protocol.OnCheck, Apply, Drop, Enabled;
    var verdict := rep.Verdict();
    BeforeCheck(w, m);
    CheckEnabledIff(w, m, verdict);
    if Enabled(w, CheckReply(m, verdict)) {
      CheckReplyIs(w, m, verdict);
      OnCheckCases(w, m, verdict);
    }
  }

  lemma RetryReasons(reason: Reason)
    ensures IsRetryable(reason) <==>
      || reason == AccountInUse || reason == BankNotAvailable
      || reason == WouldExceedMaxBlockCostLimit || reason == WouldExceedMaxAccountCostLimit
      || reason == WouldExceedAccountDataBlockLimit || reason == WouldExceedMaxVoteCostLimit
      || reason == WouldExceedAccountDataTotalLimit
    ensures !IsRetryable(reason) <==> reason == Included || reason.OtherReason?
  {
  }

  lemma FinishedIs(w: World, m: PriorityId)
    ensures Finished(w, m) ==
      w.(executes := w.executes - multiset{m}, executing := w.executing - {m.key}, cohort := w.cohort - {m.key})
  {
  }

  /** The transaction is back among the checked or the deferred ones. */
  function Returned(w: World, m: PriorityId, defers: bool): World {
    if defers then w.(deferred := w.deferred + {m}) else w.(checked := w.checked + {m})
  }

  /** Room is made if there is more than fits. */
  ghost function EvictIfOver(w: World): World
    requires forall x | x in w.checked :: x.key in w.txs
  {
    if PendingLen(w) > w.cfg.checkedCapacity && w.checked != {} then EvictChecked(w) else w
  }

  lemma OnExecuteCases(w: World, m: PriorityId, outcome: Outcome)
    requires IsMeta(w, m) && outcome.Executed? && forall x | x in w.checked :: x.key in w.txs
    ensures var w1 := Finished(w, m);
      && m.key in w1.txs && (forall x | x in w1.checked + {m} :: x.key in w1.txs)
      && Protocol.OnExecute(w, m, outcome) ==
           if m.priority == BUNDLE_MARKER || !IsRetryable(outcome.reason) then Drop(w1, m.key)
           else EvictIfOver(Returned(w1, m, outcome.slot == w.slot && outcome.reason != AccountInUse))
  {
  }

  lemma ExecuteReplyIs(w: World, m: PriorityId, outcome: Outcome)
    requires Enabled(w, ExecuteReply(m, outcome))
    ensures Apply(w, ExecuteReply(m, outcome)) == Protocol.OnExecute(w, m, outcome)
  {
    hide Protocol.OnExecute;
  }

  lemma CheckReplyIs(w: World, m: PriorityId, verdict: CheckVerdict)
    requires Enabled(w, CheckReply(m, verdict))
    ensures Apply(w, CheckReply(m, verdict)) == Protocol.OnCheck(w, m, verdict)
  {
    hide Protocol.OnCheck;
  }

  /** What handling a check response relies on. */
  lemma BeforeCheck(w: World, m: PriorityId)
    requires Inv(w) && IsMeta(w, m)
    ensures forall x | x in w.checked :: x.key in w.txs && x.key !in w.executing && (x.key == m.key ==> x == m)
  {
  }
}
