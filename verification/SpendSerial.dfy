/**
 * When a Postgres call answers as the serial ledger, and so as the SQLite
 * backend: the exact condition for every call that finishes, in any
 * interleaving and alone.
 */
module SpendSerial {
  import opened Prelude
  import opened SpendModel
  import opened PostgresSpendLedger
  import opened SpendConcurrency

  /**
   * The schema's CHECK constraints let the call through: what the serial ledger
   * would write is not negative where a CHECK looks.
   */
  predicate Passes(l: Ledger, op: Op) {
    match op
    case SetCeiling(_, ceiling) => ceiling >= 0
    case Reserve(r, _, amount, campaign) =>
      r in l.reservations || Admission(l.budgets, r, campaign, amount) != Stored || amount >= 0
    case Settle(r, actual) =>
      r in l.reservations && l.reservations[r].status.Reserved? ==>
        forall k :: k in KeysOf(r, l.reservations[r].campaign) && k in l.budgets ==> l.budgets[k].settled + actual >= 0
    case Release(_) => true
  }

  predicate Alone(s: System, tid: Tid) { forall x :: x in s.locks ==> s.locks[x] == tid }

  /** A reserve past its first read still has a fresh id: no other delivery has committed it meanwhile. */
  predicate StillFresh(s: System, tid: Tid) {
    tid in s.txns && (s.txns[tid].op.Reserve? && !s.txns[tid].pc.Begin? ==> s.txns[tid].op.r !in s.committed.reservations)
  }

  predicate Answered(s: System, tid: Tid, l: Ledger, op: Op) {
    tid in s.txns && s.txns[tid].pc.Finished? && s.committed == Apply(l, op).0 &&
    SameReply(s.txns[tid].pc.reply, Apply(l, op).1)
  }

  predicate GoesOn(s: System, s': System, tid: Tid) {
    tid in s.txns && tid in s'.txns && Active(s'.txns[tid]) && s'.txns[tid].op == s.txns[tid].op && s'.committed == s.committed
  }

  /** What one statement does: the call goes on, or ends with the serial answer exactly when it is fresh and passes. */
  predicate Judged(s: System, s': System, tid: Tid) {
    tid in s.txns && tid in s'.txns &&
    var op := s.txns[tid].op;
    if Active(s'.txns[tid]) then GoesOn(s, s', tid) && (StillFresh(s, tid) ==> StillFresh(s', tid))
    else
      (Answered(s', tid, s.committed, op) <==> StillFresh(s, tid) && Passes(s.committed, op)) &&
      (StillFresh(s, tid) && !Passes(s.committed, op) ==>
        s'.committed == s.committed && s'.txns[tid].pc == Finished(Refusal(CheckViolation)))
  }

  lemma AloneNeverWaits(s: System, tid: Tid)
    requires Inv(s) && Alone(s, tid) && tid in s.txns && Active(s.txns[tid])
    ensures Enabled(s, tid)
  {
    var t := s.txns[tid];
    hide TxnOk;
    if Wants(s, t).Some? {
      WaitsAboveWhatItHoldsIn(s, tid);
      assert Wants(s, t).value !in t.held;
    }
  }

  lemma StaysAlone(s: System, tid: Tid)
    requires Enabled(s, tid) && Alone(s, tid)
    ensures Alone(Step(s, tid), tid)
  {
  }

  /** Conservation at work: a budget's counter covers each reservation still held against it. */
  lemma ReservedCovers(l: Ledger, r: ResKey, k: BudgetKey)
    requires LedgerOk(l) && r in l.reservations && l.reservations[r].status.Reserved?
    requires k in KeysOf(r, l.reservations[r].campaign)
    ensures k in l.budgets && l.budgets[k].reserved >= l.reservations[r].amount
  {
    assert k in l.budgets && Balanced(l, k);
    assert Held(l, k)[r] == l.reservations[r].amount;
    TotalBoundsEntry(Held(l, k), r);
  }

  /** So on a call that passes no CHECK fires, on reserved_micros in particular. */
  lemma MovedPassesChecks(l: Ledger, t: Txn, k: BudgetKey)
    requires LedgerOk(l) && TxnOk(l, t) && t.pc.Writing? && k in All(t) && Passes(l, t.op)
    requires t.op.Reserve? ==> t.op.r !in l.reservations
    ensures k in t.seen && Checks(Moved(t, t.seen[k]))
  {
    assert k in t.seen && t.seen[k] == l.budgets[k] && Checks(l.budgets[k]) by { hide Conserved; }
    AllKeys(t);
    if ReadsRecord(t.op) {
      assert t.op.r in l.reservations && l.reservations[t.op.r] == t.record.value && t.record.value.status.Reserved?;
      hide TxnOk, LedgerOk;
      ReservedCovers(l, t.op.r, k);
    } else {
      AdmittedIsStored(l, t);
      hide TxnOk, LedgerOk;
    }
  }

  /** What was admitted on the rows read under lock is admitted by the committed ones. */
  lemma AdmittedIsStored(l: Ledger, t: Txn)
    requires TxnOk(l, t) && t.op.Reserve? && (t.pc.Writing? || t.pc.Recording?)
    ensures Admission(l.budgets, t.op.r, t.op.campaign, t.op.amount) == Stored
  {
    AllKeys(t);
    assert forall k :: k in KeysOf(t.op.r, t.op.campaign) ==> Fits(l.budgets, k, t.op.amount);
  }

  lemma SerialNeverViolates(l: Ledger, op: Op)
    ensures Apply(l, op).1 != Refusal(CheckViolation) && Apply(l, op).1 != Refusal(DuplicateKey)
  {
  }

  lemma BeginJudged(s: System, tid: Tid)
    requires Enabled(s, tid) && s.txns[tid].pc.Begin?
    ensures Judged(s, Step(s, tid), tid)
  {
  }

  /** A ceiling refusal is the serial answer exactly while the id is fresh. */
  lemma OverCeilingJudged(s: System, tid: Tid, reply: Reply)
    requires tid in s.txns && s.txns[tid].op.Reserve? && !s.txns[tid].pc.Begin? && OverCeiling(reply)
    requires var op := s.txns[tid].op; Admission(s.committed.budgets, op.r, op.campaign, op.amount) != Stored
    ensures Judged(s, Finish(s, tid, s.committed, reply), tid)
  {
    hide Admission;
  }

  /** An exception the serial ledger never raises. */
  lemma ViolationJudged(s: System, tid: Tid, reason: Reason)
    requires tid in s.txns && (reason == CheckViolation || (reason == DuplicateKey && !StillFresh(s, tid)))
    requires StillFresh(s, tid) ==> !Passes(s.committed, s.txns[tid].op)
    ensures Judged(s, Finish(s, tid, s.committed, Refusal(reason)), tid)
  {
    SerialNeverViolates(s.committed, s.txns[tid].op);
    hide Passes, Apply, StillFresh;
  }

  lemma GoingOnJudged(s: System, s': System, tid: Tid)
    requires GoesOn(s, s', tid) && !s.txns[tid].pc.Begin?
    ensures Judged(s, s', tid)
  {
    hide Passes, Answered;
  }

  lemma LockingJudged(s: System, tid: Tid)
    requires Inv(s) && Enabled(s, tid) && s.txns[tid].pc.Locking?
    ensures Judged(s, Step(s, tid), tid)
  {
    hide TxnOk, LedgerOk, Judged, Step, BudgetList, Admission;
    var t := s.txns[tid];
    assert TxnOk(s.committed, t);
    hide Inv;
    LockingIndex(s.committed, t);
    LockingStep(s, tid);
    var k := BudgetList(t)[t.pc.i];
    if k !in s.committed.budgets && t.op.Reserve? {
      assert !Fits(s.committed.budgets, k, t.op.amount);
      OverCeilingJudged(s, tid, Refusal(BudgetUnavailable(k.kind)));
    } else {
      GoingOnJudged(s, Step(s, tid), tid);
    }
  }

  lemma LockingStep(s: System, tid: Tid)
    requires Enabled(s, tid) && s.txns[tid].pc.Locking? && s.txns[tid].pc.i < |BudgetList(s.txns[tid])|
    ensures var t := s.txns[tid];
            var k := BudgetList(t)[t.pc.i];
            if k !in s.committed.budgets && t.op.Reserve?
            then Step(s, tid) == Finish(s, tid, s.committed, Refusal(BudgetUnavailable(k.kind)))
            else GoesOn(s, Step(s, tid), tid)
  {
    hide BudgetList;
  }

  lemma LockingIndex(l: Ledger, t: Txn)
    requires TxnOk(l, t) && t.pc.Locking?
    ensures t.pc.i < |BudgetList(t)| && (t.op.Reserve? ==> BudgetList(t)[t.pc.i] in KeysOf(t.op.r, t.op.campaign))
  {
  }

  lemma CheckingJudged(s: System, tid: Tid)
    requires Inv(s) && Enabled(s, tid) && s.txns[tid].pc.Checking?
    ensures Judged(s, Step(s, tid), tid)
  {
    hide TxnOk, LedgerOk, Judged, Step, Admission;
    var t := s.txns[tid];
    assert TxnOk(s.committed, t);
    hide Inv;
    SeenDecides(s.committed, t);
    CheckingStep(s, tid);
    var admission := Admission(t.seen, t.op.r, t.op.campaign, t.op.amount);
    if admission != Stored { OverCeilingJudged(s, tid, admission); } else { GoingOnJudged(s, Step(s, tid), tid); }
  }

  /** The rows read under lock refuse what the committed ones refuse. */
  lemma SeenDecides(l: Ledger, t: Txn)
    requires TxnOk(l, t) && t.pc.Checking?
    ensures t.op.Reserve?
    ensures Admission(t.seen, t.op.r, t.op.campaign, t.op.amount) == Stored <==>
            Admission(l.budgets, t.op.r, t.op.campaign, t.op.amount) == Stored
  {
    AllKeys(t);
    assert forall k :: k in KeysOf(t.op.r, t.op.campaign) ==>
        (Fits(t.seen, k, t.op.amount) <==> Fits(l.budgets, k, t.op.amount));
    hide Admission, KeysOf, Fits, TxnOk;
  }

  lemma CheckingStep(s: System, tid: Tid)
    requires Enabled(s, tid) && s.txns[tid].pc.Checking? && s.txns[tid].op.Reserve?
    ensures var op := s.txns[tid].op;
            var admission := Admission(s.txns[tid].seen, op.r, op.campaign, op.amount);
            if admission != Stored then Step(s, tid) == Finish(s, tid, s.committed, admission)
            else GoesOn(s, Step(s, tid), tid)
  {
    hide Admission;
  }

  lemma WritingJudged(s: System, tid: Tid)
    requires Inv(s) && Enabled(s, tid) && s.txns[tid].pc.Writing?
    ensures Judged(s, Step(s, tid), tid)
  {
    var t := s.txns[tid];
    assert TxnOk(s.committed, t) && LedgerOk(s.committed);
    WritingIndex(s.committed, t);
    hide Inv, TxnOk, LedgerOk, Moved, Checks, All, Judged, Passes;
    if StillFresh(s, tid) && Passes(s.committed, t.op) {
      MovedPassesChecks(s.committed, t, BudgetList(t)[t.pc.i]);
    }
    WriteJudged(s, tid);
  }

  lemma WriteJudged(s: System, tid: Tid)
    requires Enabled(s, tid) && s.txns[tid].pc.Writing?
    requires s.txns[tid].pc.i < |BudgetList(s.txns[tid])|
    requires var t := s.txns[tid];
             var k := BudgetList(t)[t.pc.i];
             k in t.seen && (StillFresh(s, tid) && Passes(s.committed, t.op) ==> Checks(Moved(t, t.seen[k])))
    ensures Judged(s, Step(s, tid), tid)
  {
    hide Checks, Moved, BudgetList, Passes, StillFresh, Judged;
    var t := s.txns[tid];
    if Checks(Moved(t, t.seen[BudgetList(t)[t.pc.i]])) { GoingOnJudged(s, Step(s, tid), tid); }
    else { ViolationJudged(s, tid, CheckViolation); }
  }

  lemma WritingIndex(l: Ledger, t: Txn)
    requires TxnOk(l, t) && t.pc.Writing?
    ensures t.pc.i < |BudgetList(t)| && BudgetList(t)[t.pc.i] in All(t) && BudgetList(t)[t.pc.i] in t.seen
  {
  }

  lemma RecordingJudged(s: System, tid: Tid)
    requires Inv(s) && Enabled(s, tid) && s.txns[tid].pc.Recording?
    ensures Judged(s, Step(s, tid), tid)
  {
    var t := s.txns[tid];
    assert TxnOk(s.committed, t);
    if t.op.Reserve? { AdmittedIsStored(s.committed, t); }
    hide Inv, TxnOk, LedgerOk, Admission, Judged;
    if t.op.Reserve? && t.op.r in s.committed.reservations { ViolationJudged(s, tid, DuplicateKey); }
    else if t.op.Reserve? && t.op.amount < 0 { ViolationJudged(s, tid, CheckViolation); }
    else { GoingOnJudged(s, Step(s, tid), tid); }
  }

  lemma CommitPasses(l: Ledger, t: Txn)
    requires TxnOk(l, t) && t.pc.Committing?
    ensures Passes(l, t.op) && (t.op.Reserve? ==> t.op.r !in l.reservations)
  {
    if ReadsRecord(t.op) {
      AllKeys(t);
      assert forall k :: k in All(t) ==> t.drafts[k] == Moved(t, l.budgets[k]) && Checks(t.drafts[k]);
    }
  }

  lemma CommittingJudged(s: System, tid: Tid)
    requires Inv(s) && Enabled(s, tid) && s.txns[tid].pc.Committing?
    ensures Judged(s, Step(s, tid), tid)
  {
    assert TxnOk(s.committed, s.txns[tid]);
    CommitPasses(s.committed, s.txns[tid]);
    CommitIsApply(s.committed, s.txns[tid]);
    hide Inv, TxnOk, Passes, Apply, Publish, CommitReply;
  }

  lemma StepIsJudged(s: System, tid: Tid)
    requires Inv(s) && Enabled(s, tid)
    ensures Judged(s, Step(s, tid), tid)
  {
    hide Inv, TxnOk, Judged, Step;
    match s.txns[tid].pc {
      case Begin => BeginJudged(s, tid);
      case Locking(_) => LockingJudged(s, tid);
      case Checking => CheckingJudged(s, tid);
      case Writing(_) => WritingJudged(s, tid);
      case Recording => RecordingJudged(s, tid);
      case Committing => CommittingJudged(s, tid);
    }
  }

  /**
   * Whatever the interleaving, a call that finishes, by return or by exception,
   * has the serial effect and the serial answer (up to which ceiling reason is
   * named) if and only if it is not a reserve whose id another delivery
   * committed after its first read, and the CHECK constraints let it through.
   */
  lemma {:induction false} FinishedCallsAreSerialExactly(schedule: seq<Action>, tid: Tid)
    requires Run(schedule).Some? && Legal(Run(schedule).value, Advance(tid))
    requires tid in Do(Run(schedule).value, Advance(tid)).txns
    requires Do(Run(schedule).value, Advance(tid)).txns[tid].pc.Finished?
    ensures var s := Run(schedule).value;
            tid in s.txns &&
            (Answered(Do(s, Advance(tid)), tid, s.committed, s.txns[tid].op) <==>
             StillFresh(s, tid) && Passes(s.committed, s.txns[tid].op))
  {
    RunKeepsInv(schedule);
    hide Run, Inv, Answered, StillFresh, Passes, Step;
    StepIsJudged(Run(schedule).value, tid);
  }

  /** Alone, a call ends as the serial ledger has it, or is stopped by a CHECK with nothing changed. */
  predicate Settled(s': System, tid: Tid, l: Ledger, op: Op) {
    tid in s'.txns && s'.txns[tid].pc.Finished? && (Answered(s', tid, l, op) <==> Passes(l, op)) &&
    (!Passes(l, op) ==> s'.committed == l && s'.txns[tid].pc.reply == Refusal(CheckViolation))
  }

  /**
   * Left alone, a transaction finishes, and moves the ledger and replies exactly
   * as the serial call does if and only if the CHECK constraints let it through.
   */
  lemma {:induction false} AloneAgreesWithSerial(s: System, tid: Tid) returns (order: seq<Tid>)
    requires Inv(s) && Alone(s, tid) && tid in s.txns && Active(s.txns[tid]) && StillFresh(s, tid)
    ensures (forall x :: x in order ==> x == tid) && AdvanceEach(s, order).Some?
    ensures Settled(AdvanceEach(s, order).value, tid, s.committed, s.txns[tid].op)
    decreases Work(s)
  {
    AloneNeverWaits(s, tid);
    StepIsJudged(s, tid);
    var s' := Step(s, tid);
    hide Inv, TxnOk, LedgerOk, Step, Passes, Answered, StillFresh;
    if !Active(s'.txns[tid]) {
      order := [tid];
      assert order[1..] == [];
    } else {
      StepKeepsInv(s, tid);
      StepWorks(s, tid);
      StaysAlone(s, tid);
      var rest := AloneAgreesWithSerial(s', tid);
      order := [tid] + rest;
      assert order[1..] == rest;
    }
  }

  lemma QuietHoldsNothing(s: System)
    requires Inv(s) && Quiet(s)
    ensures s.locks == map[]
  {
    forall tid | tid in s.txns ensures s.txns[tid].held == {} {
      assert TxnOk(s.committed, s.txns[tid]);
    }
    hide TxnOk, LedgerOk;
    assert s.locks.Keys == {};
  }

  /**
   * Run one after the other, both backends accept and refuse the same calls and
   * reach the same ledgers, except that this one refuses what breaks a CHECK.
   */
  lemma {:induction false} BackendsAgree(schedule: seq<Action>, tid: Tid, op: Op) returns (order: seq<Tid>)
    requires Run(schedule).Some? && Quiet(Run(schedule).value) && tid !in Run(schedule).value.txns
    ensures var s := Do(Run(schedule).value, Start(tid, op));
            AdvanceEach(s, order).Some? &&
            Settled(AdvanceEach(s, order).value, tid, ApplyAll(EMPTY, CommitLog(schedule)), op)
  {
    var s0 := Run(schedule).value;
    RunKeepsInv(schedule);
    CommittedLedgerIsSerial(schedule);
    StartKeepsInv(s0, tid, op);
    QuietHoldsNothing(s0);
    hide Inv, AdvanceEach, Run, ApplyAll, CommitLog, Settled;
    order := AloneAgreesWithSerial(Do(s0, Start(tid, op)), tid);
  }

  /** So a negative estimate, which the serial ledger admits whenever it fits, is never committed. */
  lemma NegativeEstimateNeverCommits(schedule: seq<Action>, r: ResKey)
    requires Run(schedule).Some? && r in Run(schedule).value.committed.reservations
    ensures Run(schedule).value.committed.reservations[r].amount >= 0
  {
    RunKeepsInv(schedule);
  }

  // ----- the one reply that is not serial -----------------------------------

  lemma {:induction false} AdvanceInOrder(s: System, first: seq<Tid>, rest: seq<Tid>)
    requires AdvanceEach(s, first).Some?
    ensures AdvanceEach(s, first + rest) == AdvanceEach(AdvanceEach(s, first).value, rest)
    decreases |first|
  {
    if first == [] {
      assert first + rest == rest;
    } else {
      assert (first + rest)[1..] == first[1..] + rest;
      AdvanceInOrder(Step(s, first[0]), first[1..], rest);
    }
  }

  /** Steps of one transaction leave every other transaction where it is. */
  lemma {:induction false} OthersStandStill(s: System, tid: Tid, order: seq<Tid>, other: Tid)
    requires Inv(s) && (forall x :: x in order ==> x == tid) && AdvanceEach(s, order).Some?
    requires other in s.txns && other != tid && Alone(s, tid)
    ensures var s' := AdvanceEach(s, order).value;
            Inv(s') && Alone(s', tid) && other in s'.txns && s'.txns[other] == s.txns[other]
    decreases |order|
  {
    if order != [] {
      assert order[0] in order && forall x :: x in order[1..] ==> x in order;
      StepKeepsInv(s, tid);
      StepMovesOne(s, tid);
      StaysAlone(s, tid);
      hide Inv, TxnOk, Step;
      OthersStandStill(Step(s, tid), tid, order[1..], other);
    }
  }

  /** A reserve that finds its only budget too small ends in an exception two statements later. */
  lemma LatecomerIsRefused(s: System, tid: Tid)
    requires tid in s.txns && s.txns[tid] == NewTxn(s.txns[tid].op).(pc := Locking(0)) && s.txns[tid].op.Reserve?
    requires !NamesCampaign(s.txns[tid].op.campaign) && s.locks == map[]
    requires AccountOf(s.txns[tid].op.r) in s.committed.budgets
    requires !Fits(s.committed.budgets, AccountOf(s.txns[tid].op.r), s.txns[tid].op.amount)
    ensures AdvanceEach(s, [tid, tid]).Some?
    ensures AdvanceEach(s, [tid, tid]).value.committed == s.committed
    ensures tid in AdvanceEach(s, [tid, tid]).value.txns
    ensures AdvanceEach(s, [tid, tid]).value.txns[tid].op == s.txns[tid].op
    ensures AdvanceEach(s, [tid, tid]).value.txns[tid].pc == Finished(Refusal(CeilingExhausted(Account)))
  {
    var a := AccountOf(s.txns[tid].op.r);
    var t := s.txns[tid];
    assert BudgetList(t) == [a];
    var s1 := Step(s, tid);
    assert s1.txns[tid] == t.(pc := Checking, seen := map[a := s.committed.budgets[a]], held := {BudgetRow(a)});
    assert [tid, tid][1..] == [tid] && [tid][1..] == [];
    var s2 := Step(s1, tid);
    assert AdvanceEach(s1, [tid]) == Some(s2);
  }

  /**
   * Two deliveries `p` and `q` of one reserve, `p` past its first read when `q`
   * runs: if the estimate is all the account had left, `q` is charged and `p`
   * raises, although before and after `q` the serial ledger accepts the call.
   * So only effects and accepting replies are serializable.
   */
  lemma {:induction false} ConcurrentRedeliveryMayRaise(s: System, p: Tid, q: Tid) returns (order: seq<Tid>)
    requires Inv(s) && s.locks == map[] && p in s.txns && q in s.txns && p != q
    requires s.txns[q] == NewTxn(s.txns[q].op) && s.txns[p] == NewTxn(s.txns[q].op).(pc := Locking(0))
    requires s.txns[q].op.Reserve? && !NamesCampaign(s.txns[q].op.campaign)
    requires s.txns[q].op.r !in s.committed.reservations
    requires AccountOf(s.txns[q].op.r) in s.committed.budgets
    requires s.committed.budgets[AccountOf(s.txns[q].op.r)].Available() == s.txns[q].op.amount > 0
    ensures AdvanceEach(s, order).Some?
    ensures var op := s.txns[q].op;
            var s' := AdvanceEach(s, order).value;
            s'.committed == Apply(s.committed, op).0 &&
            Apply(s.committed, op).1 == Row(Fresh(op)) && Apply(s'.committed, op).1 == Row(Fresh(op)) &&
            p in s'.txns && s'.txns[p].op == op && s'.txns[p].pc == Finished(Refusal(CeilingExhausted(Account)))
  {
    var op := s.txns[q].op;
    var first := RunsBetween(s, p, q);
    hide Inv, AdvanceEach;
    AccountExhausted(s.committed, op);
    var m := AdvanceEach(s, first).value;
    LatecomerIsRefused(m, p);
    AdvanceInOrder(s, first, [p, p]);
    order := first + [p, p];
  }

  /** A whole uncontended transaction run between two statements of another. */
  lemma RunsBetween(s: System, p: Tid, q: Tid) returns (order: seq<Tid>)
    requires Inv(s) && s.locks == map[] && p in s.txns && q in s.txns && p != q
    requires s.txns[q] == NewTxn(s.txns[q].op) && Passes(s.committed, s.txns[q].op)
    ensures AdvanceEach(s, order).Some?
    ensures var m := AdvanceEach(s, order).value;
            m.committed == Apply(s.committed, s.txns[q].op).0 && m.locks == map[] && p in m.txns && m.txns[p] == s.txns[p]
  {
    hide Inv, AdvanceEach, Passes;
    order := AloneAgreesWithSerial(s, q);
    OthersStandStill(s, q, order, p);
    NothingHeld(AdvanceEach(s, order).value, q);
  }

  lemma NothingHeld(m: System, q: Tid)
    requires Inv(m) && Alone(m, q) && q in m.txns && m.txns[q].pc.Finished?
    ensures m.locks == map[]
  {
    assert TxnOk(m.committed, m.txns[q]);
    assert m.txns[q].held == {};
    hide TxnOk;
    assert m.locks.Keys == {};
  }

  lemma AccountExhausted(l: Ledger, op: Op)
    requires op.Reserve? && !NamesCampaign(op.campaign) && op.r !in l.reservations && AccountOf(op.r) in l.budgets
    requires l.budgets[AccountOf(op.r)].Available() == op.amount > 0
    ensures var l' := Apply(l, op).0;
            AccountOf(op.r) in l'.budgets && !Fits(l'.budgets, AccountOf(op.r), op.amount) &&
            Apply(l, op).1 == Row(Fresh(op)) && Apply(l', op).1 == Row(Fresh(op))
  {
    assert Admission(l.budgets, op.r, op.campaign, op.amount) == Stored;
  }

  // ----- reached from the start ---------------------------------------------

  function Advances(order: seq<Tid>): seq<Action> { seq(|order|, i requires 0 <= i < |order| => Advance(order[i])) }

  lemma RunSnoc(schedule: seq<Action>, a: Action)
    requires Run(schedule).Some? && Legal(Run(schedule).value, a)
    ensures Run(schedule + [a]) == Some(Do(Run(schedule).value, a))
  {
    hide Do, Legal;
    assert (schedule + [a])[..|schedule|] == schedule;
  }

  lemma {:induction false} RunOn(schedule: seq<Action>, order: seq<Tid>)
    requires Run(schedule).Some? && AdvanceEach(Run(schedule).value, order).Some?
    ensures Run(schedule + Advances(order)) == AdvanceEach(Run(schedule).value, order)
    decreases |order|
  {
    if order == [] {
      assert schedule + Advances(order) == schedule;
    } else {
      hide Run, Step;
      RunSnoc(schedule, Advance(order[0]));
      RunOn(schedule + [Advance(order[0])], order[1..]);
      assert schedule + [Advance(order[0])] + Advances(order[1..]) == schedule + Advances(order);
    }
  }

  function Budgeted(t: string, c: int): Op { SetCeiling(BudgetKey(t, Account, t), c) }

  function WholeBudget(t: string, c: int): Op { Reserve(ResKey(t, "r"), "sms", c, None) }

  /** From the empty ledger: a ceiling is set, two deliveries start, and the first gets past its first read. */
  lemma ContendedStart(t: string, c: int) returns (schedule: seq<Action>)
    requires c > 0
    ensures Run(schedule).Some?
    ensures Run(schedule).value == System(
              Apply(EMPTY, Budgeted(t, c)).0, map[],
              map[0 := NewTxn(Budgeted(t, c)).(
                    drafts := map[BudgetKey(t, Account, t) := Budget(c, 0, 0)], pc := Finished(Stored)),
                  1 := NewTxn(WholeBudget(t, c)).(pc := Locking(0)), 2 := NewTxn(WholeBudget(t, c))])
  {
    var set_, op, a := Budgeted(t, c), WholeBudget(t, c), BudgetKey(t, Account, t);
    hide Run;
    assert Run([]) == Some(IDLE) by { EmptyRun(); }
    schedule := [];
    var s := IDLE;
    RunSnoc(schedule, Start(0, set_));
    schedule, s := schedule + [Start(0, set_)], Do(s, Start(0, set_));
    RunSnoc(schedule, Advance(0));
    schedule, s := schedule + [Advance(0)], Do(s, Advance(0));
    assert s.txns[0] == NewTxn(set_).(drafts := map[a := Budget(c, 0, 0)], pc := Committing, held := {BudgetRow(a)});
    RunSnoc(schedule, Advance(0));
    schedule, s := schedule + [Advance(0)], Do(s, Advance(0));
    assert s.locks == map[] && s.committed == Apply(EMPTY, set_).0;
    RunSnoc(schedule, Start(1, op));
    schedule, s := schedule + [Start(1, op)], Do(s, Start(1, op));
    RunSnoc(schedule, Start(2, op));
    schedule, s := schedule + [Start(2, op)], Do(s, Start(2, op));
    RunSnoc(schedule, Advance(1));
    schedule, s := schedule + [Advance(1)], Do(s, Advance(1));
  }

  lemma EmptyRun()
    ensures Run([]) == Some(IDLE)
  {
  }

  /**
   * The contention is real: for every tenant and every positive ceiling a
   * schedule from the empty ledger ends with one delivery charged and the other
   * raising, although the serial ledger accepts the call before and after.
   */
  lemma {:induction false} RedeliveryRaisesFromEmpty(t: string, c: int) returns (schedule: seq<Action>)
    requires c > 0
    ensures Run(schedule).Some?
    ensures var s, l, op := Run(schedule).value, Apply(EMPTY, Budgeted(t, c)).0, WholeBudget(t, c);
            s.committed == Apply(l, op).0 && Apply(l, op).1 == Row(Fresh(op)) && Apply(s.committed, op).1 == Row(Fresh(op)) &&
            1 in s.txns && s.txns[1].op == op && s.txns[1].pc == Finished(Refusal(CeilingExhausted(Account)))
  {
    var begin := ContendedStart(t, c);
    RunKeepsInv(begin);
    var s := Run(begin).value;
    hide Run, Inv, AdvanceEach;
    var order := ConcurrentRedeliveryMayRaise(s, 1, 2);
    RunOn(begin, order);
    schedule := begin + Advances(order);
  }
}
