/**
 * What the row-lock protocol guarantees over whole runs: commits are
 * serializable, no reservation id is charged twice, no deadlock and no
 * livelock, and a transaction left alone answers as the serial ledger does.
 */
module SpendConcurrency {
  import opened Prelude
  import opened SpendModel
  import opened PostgresSpendLedger

  // ----- serializability ---------------------------------------------------

  predicate Commits(s: System, a: Action) {
    a.Advance? && a.tid in s.txns && s.txns[a.tid].pc.Committing?
  }

  /** The calls that committed, in commit order. */
  function CommitLog(schedule: seq<Action>): seq<Op> {
    if schedule == [] then []
    else
      var before := Run(schedule[..|schedule| - 1]);
      var a := schedule[|schedule| - 1];
      CommitLog(schedule[..|schedule| - 1]) +
      (if before.Some? && Commits(before.value, a) then [before.value.txns[a.tid].op] else [])
  }

  /** Only a commit changes what others can read. */
  lemma OnlyCommitsPublish(s: System, a: Action)
    requires Legal(s, a) && !Commits(s, a)
    ensures Do(s, a).committed == s.committed
  {
  }

  /** Whatever the interleaving, the committed ledger is the serial ledger run over the commit log. */
  lemma {:induction false} CommittedLedgerIsSerial(schedule: seq<Action>)
    requires Run(schedule).Some?
    ensures Run(schedule).value.committed == ApplyAll(EMPTY, CommitLog(schedule))
  {
    if schedule != [] {
      var before := schedule[..|schedule| - 1];
      var a := schedule[|schedule| - 1];
      var s := Run(before).value;
      CommittedLedgerIsSerial(before);
      if Commits(s, a) {
        RunKeepsInv(before);
        CommitIsApply(s.committed, s.txns[a.tid]);
        var log, op := CommitLog(before), s.txns[a.tid].op;
        assert (log + [op])[..|log + [op]| - 1] == log;
      } else {
        OnlyCommitsPublish(s, a);
        assert CommitLog(before) + [] == CommitLog(before);
      }
    }
  }

  predicate ChargedOnce(log: seq<Op>) {
    forall i, j :: 0 <= i < j < |log| && log[i].Reserve? && log[j].Reserve? ==> log[i].r != log[j].r
  }

  /** At most one settle or release of each reservation. */
  predicate EndedOnce(log: seq<Op>) {
    forall i, j :: 0 <= i < j < |log| && ReadsRecord(log[i]) && ReadsRecord(log[j]) ==> log[i].r != log[j].r
  }

  predicate Ended(l: Ledger, r: ResKey) { r in l.reservations && !l.reservations[r].status.Reserved? }

  lemma CommitTakesFreshId(s: System, tid: Tid)
    requires Inv(s) && Enabled(s, tid) && s.txns[tid].pc.Committing?
    ensures Step(s, tid).committed.reservations.Keys >= s.committed.reservations.Keys
    ensures s.txns[tid].op.Reserve? ==>
              s.txns[tid].op.r !in s.committed.reservations && s.txns[tid].op.r in Step(s, tid).committed.reservations
    ensures ReadsRecord(s.txns[tid].op) ==>
              !Ended(s.committed, s.txns[tid].op.r) && Ended(Step(s, tid).committed, s.txns[tid].op.r)
    ensures forall r :: Ended(s.committed, r) ==> Ended(Step(s, tid).committed, r)
  {
    assert TxnOk(s.committed, s.txns[tid]);
  }

  /**
   * In any interleaving no reservation id is charged by two committed reserves,
   * and none is settled or released by two committed calls.
   */
  lemma {:induction false} NeverChargedTwice(schedule: seq<Action>)
    requires Run(schedule).Some?
    ensures ChargedOnce(CommitLog(schedule)) && EndedOnce(CommitLog(schedule))
    ensures forall i :: 0 <= i < |CommitLog(schedule)| && CommitLog(schedule)[i].Reserve? ==>
              CommitLog(schedule)[i].r in Run(schedule).value.committed.reservations
    ensures forall i :: 0 <= i < |CommitLog(schedule)| && ReadsRecord(CommitLog(schedule)[i]) ==>
              Ended(Run(schedule).value.committed, CommitLog(schedule)[i].r)
  {
    if schedule != [] {
      var before := schedule[..|schedule| - 1];
      var a := schedule[|schedule| - 1];
      var s := Run(before).value;
      NeverChargedTwice(before);
      if Commits(s, a) {
        RunKeepsInv(before);
        hide Inv, TxnOk, Step, Ended;
        CommitTakesFreshId(s, a.tid);
      } else {
        OnlyCommitsPublish(s, a);
      }
    }
  }

  /**
   * An insert never meets another transaction's pending insert of the same id:
   * the account lock keeps the second one from getting that far.
   */
  lemma {:induction false} InsertsNeverMeet(schedule: seq<Action>, p: Tid, q: Tid)
    requires Run(schedule).Some? && p != q && p in Run(schedule).value.txns && q in Run(schedule).value.txns
    requires var s := Run(schedule).value;
             s.txns[p].op.Reserve? && s.txns[q].op.Reserve? && s.txns[p].op.r == s.txns[q].op.r && s.txns[p].pc.Committing?
    ensures var s := Run(schedule).value;
            !s.txns[q].pc.Recording? && !s.txns[q].pc.Committing?
  {
    var s := Run(schedule).value;
    RunKeepsInv(schedule);
    assert TxnOk(s.committed, s.txns[p]) && TxnOk(s.committed, s.txns[q]);
    InsertHoldsAccount(s.committed, s.txns[p]);
    InsertHoldsAccount(s.committed, s.txns[q]);
    hide TxnOk, Conserved;
    HeldApart(s, p, q);
  }

  lemma InsertHoldsAccount(l: Ledger, t: Txn)
    requires TxnOk(l, t) && t.op.Reserve?
    ensures t.pc.Recording? || t.pc.Committing? ==> BudgetRow(AccountOf(t.op.r)) in t.held
  {
    AllKeys(t);
  }

  /**
   * No two reserves jointly pass a ceiling: the moment a reserve commits, each
   * budget it draws on is within its ceiling with every other committed
   * reservation counted in.
   */
  lemma {:induction false} CommittedReserveStaysWithinCeiling(schedule: seq<Action>, tid: Tid)
    requires Run(schedule).Some? && Legal(Run(schedule).value, Advance(tid)) && Commits(Run(schedule).value, Advance(tid))
    requires Run(schedule).value.txns[tid].op.Reserve?
    ensures var s := Run(schedule).value;
            var l := Do(s, Advance(tid)).committed;
            var op := s.txns[tid].op;
            forall k :: k in KeysOf(op.r, op.campaign) ==>
              Balanced(l, k) && l.budgets[k].Used() == Total(Held(l, k)) + Total(Spent(l, k)) <= l.budgets[k].ceiling
  {
    var s := Run(schedule).value;
    var t := s.txns[tid];
    RunKeepsInv(schedule);
    CommitIsApply(s.committed, t);
    ApplyConserves(s.committed, t.op);
    ReserveStaysWithinCeiling(s.committed, t.op);
  }

  /** The ceiling bound of modest serial runs holds of every interleaving whose commit log is modest. */
  lemma ModestSchedulesStayWithinCeilings(schedule: seq<Action>)
    requires Run(schedule).Some? && ModestRun(EMPTY, CommitLog(schedule))
    ensures WithinCeilings(Run(schedule).value.committed)
  {
    CommittedLedgerIsSerial(schedule);
    ModestRunsStayWithinCeilings(CommitLog(schedule));
  }

  /**
   * Every answer that is not an exception is the serial answer at the moment it
   * is given, and the ledger moves exactly as the serial call would move it.
   */
  lemma {:induction false} AcceptedRepliesAreSerial(schedule: seq<Action>, tid: Tid)
    requires Run(schedule).Some? && Legal(Run(schedule).value, Advance(tid))
    requires Do(Run(schedule).value, Advance(tid)).txns[tid].pc.Finished?
    requires !Do(Run(schedule).value, Advance(tid)).txns[tid].pc.reply.Refusal?
    ensures var s := Run(schedule).value;
            var s' := Do(s, Advance(tid));
            (s'.committed, s'.txns[tid].pc.reply) == Apply(s.committed, s.txns[tid].op)
  {
    var s := Run(schedule).value;
    RunKeepsInv(schedule);
    var t := s.txns[tid];
    assert TxnOk(s.committed, t);
    hide Inv;
    if t.pc.Committing? { CommitIsApply(s.committed, t); }
    else {
      hide TxnOk;
      OnlyCommitsPublish(s, Advance(tid));
      EarlyRepliesAreSerial(s, tid);
    }
  }

  /** Before commit only the first statement can end a call without an exception, and it answers serially. */
  lemma EarlyRepliesAreSerial(s: System, tid: Tid)
    requires Enabled(s, tid) && !s.txns[tid].pc.Committing?
    requires Step(s, tid).txns[tid].pc.Finished? && !Step(s, tid).txns[tid].pc.reply.Refusal?
    ensures (s.committed, Step(s, tid).txns[tid].pc.reply) == Apply(s.committed, s.txns[tid].op)
  {
    match s.txns[tid].pc {
      case Begin =>
      case Locking(i) =>
      case Checking =>
      case Writing(i) =>
      case Recording =>
    }
  }

  // ----- deadlock and livelock --------------------------------------------

  /** The order in which every transaction takes its locks. */
  function Rank(row: LockRow): nat {
    match row
    case ReservationRow(_) => 0
    case BudgetRow(k) => if k.kind.Account? then 1 else 2
  }

  lemma WaitsAboveWhatItHolds(s: System, t: Txn)
    requires TxnOk(s.committed, t) && Active(t) && Wants(s, t).Some?
    ensures forall x :: x in t.held ==> Rank(x) < Rank(Wants(s, t).value)
  {
    if t.pc.Locking? {
      var keys := BudgetList(t);
      assert forall k :: k in t.seen ==> k in Prefix(keys, t.pc.i);
      if t.pc.i == 1 { assert forall k :: k in t.seen ==> k == keys[0]; }
    }
  }

  /** Following who-waits-for-whom upward in rank ends at a transaction that can step. */
  lemma {:induction false} SomeoneCanStep(s: System, tid: Tid) returns (free: Tid)
    requires Inv(s) && tid in s.txns && Active(s.txns[tid])
    ensures Enabled(s, free)
    decreases if Wants(s, s.txns[tid]).Some? then 3 - Rank(Wants(s, s.txns[tid]).value) else 0
  {
    if Enabled(s, tid) { return tid; }
    var row := Wants(s, s.txns[tid]).value;
    var holder := s.locks[row];
    var t := s.txns[holder];
    assert row in t.held && TxnOk(s.committed, t);
    hide Inv, TxnOk;
    if Enabled(s, holder) { return holder; }
    assert Active(t) by { HoldersAreActive(s.committed, t); }
    WaitsAboveWhatItHoldsIn(s, holder);
    free := SomeoneCanStep(s, holder);
  }

  lemma HoldersAreActive(l: Ledger, t: Txn)
    requires TxnOk(l, t) && t.held != {}
    ensures Active(t)
  {
  }

  lemma WaitsAboveWhatItHoldsIn(s: System, tid: Tid)
    requires Inv(s) && tid in s.txns && Active(s.txns[tid]) && Wants(s, s.txns[tid]).Some?
    ensures forall x :: x in s.txns[tid].held ==> Rank(x) < Rank(Wants(s, s.txns[tid]).value)
  {
    assert TxnOk(s.committed, s.txns[tid]);
    WaitsAboveWhatItHolds(s, s.txns[tid]);
  }

  predicate Quiet(s: System) { forall tid :: tid in s.txns ==> !Active(s.txns[tid]) }

  /** Every reachable state with unfinished work has a transaction that can step. */
  lemma DeadlockFree(schedule: seq<Action>)
    requires Run(schedule).Some? && !Quiet(Run(schedule).value)
    ensures exists tid :: Enabled(Run(schedule).value, tid)
  {
    var s := Run(schedule).value;
    RunKeepsInv(schedule);
    var tid :| tid in s.txns && Active(s.txns[tid]);
    var free := SomeoneCanStep(s, tid);
  }

  /** Statements a transaction may still issue, at most. */
  function Remaining(t: Txn): nat {
    match t.pc
    case Begin => 8
    case Locking(i) => if i <= 1 then 7 - i else 0
    case Checking => 5
    case Writing(i) => if i <= 1 then 4 - i else 0
    case Recording => 2
    case Committing => 1
    case Finished(_) => 0
  }

  function Remainders(s: System): map<Tid, int> {
    map tid | tid in s.txns :: Remaining(s.txns[tid]) as int
  }

  ghost function Work(s: System): (w: int)
    ensures w >= 0
  {
    TotalNonNegative(Remainders(s));
    Total(Remainders(s))
  }

  lemma StepMovesOne(s: System, tid: Tid)
    requires Enabled(s, tid)
    ensures tid in Step(s, tid).txns && Step(s, tid).txns == s.txns[tid := Step(s, tid).txns[tid]]
  {
  }

  lemma StepShrinks(s: System, tid: Tid)
    requires Enabled(s, tid) && TxnOk(s.committed, s.txns[tid]) && tid in Step(s, tid).txns
    ensures Remaining(Step(s, tid).txns[tid]) < Remaining(s.txns[tid])
  {
    var t := s.txns[tid];
    PlacesInList(s.committed, t);
    hide TxnOk, BudgetList, Wants;
    match t.pc {
      case Begin => BeginShrinks(s, tid);
      case Locking(_) => hide StepBegin, StepChecking, StepWriting, StepRecording, StepCommit;
      case Checking => hide StepBegin, StepLocking, StepWriting, StepRecording, StepCommit;
      case Writing(_) => hide StepBegin, StepLocking, StepChecking, StepRecording, StepCommit;
      case Recording => hide StepBegin, StepLocking, StepChecking, StepWriting, StepCommit;
      case Committing => hide StepBegin, StepLocking, StepChecking, StepWriting, StepRecording;
    }
  }

  lemma PlacesInList(l: Ledger, t: Txn)
    requires TxnOk(l, t)
    ensures |BudgetList(t)| <= 2
    ensures t.pc.Locking? || t.pc.Writing? ==> t.pc.i < |BudgetList(t)|
    ensures t.pc.Checking? ==> t.op.Reserve?
  {
  }

  lemma BeginShrinks(s: System, tid: Tid)
    requires Enabled(s, tid) && s.txns[tid].pc.Begin? && tid in Step(s, tid).txns
    ensures Remaining(Step(s, tid).txns[tid]) < Remaining(s.txns[tid])
  {
  }

  lemma OneMoved(s: System, s': System, tid: Tid)
    requires tid in s.txns && tid in s'.txns && s'.txns == s.txns[tid := s'.txns[tid]]
    requires Remaining(s'.txns[tid]) < Remaining(s.txns[tid])
    ensures Work(s') < Work(s)
  {
    hide Remaining;
    var w := Remainders(s);
    assert Remainders(s') == w[tid := Remaining(s'.txns[tid]) as int];
    TotalWrite(w, tid, Remaining(s'.txns[tid]));
  }

  lemma StepWorks(s: System, tid: Tid)
    requires Inv(s) && Enabled(s, tid)
    ensures Work(Step(s, tid)) < Work(s)
  {
    assert TxnOk(s.committed, s.txns[tid]);
    StepMovesOne(s, tid);
    StepShrinks(s, tid);
    hide Inv, TxnOk, Step;
    OneMoved(s, Step(s, tid), tid);
  }

  function AdvanceEach(s: System, order: seq<Tid>): Option<System>
    decreases |order|
  {
    if order == [] then Some(s)
    else if !Enabled(s, order[0]) then None
    else AdvanceEach(Step(s, order[0]), order[1..])
  }

  /** No schedule of steps is longer than the work at its start: nothing spins. */
  lemma {:induction false} NoLivelock(s: System, order: seq<Tid>)
    requires Inv(s) && AdvanceEach(s, order).Some?
    ensures |order| <= Work(s)
    decreases |order|
  {
    if order != [] {
      StepKeepsInv(s, order[0]);
      StepWorks(s, order[0]);
      NoLivelock(Step(s, order[0]), order[1..]);
    }
  }

  /** From every reachable state the transactions in flight can all be finished. */
  lemma {:induction false} CanDrain(s: System) returns (order: seq<Tid>)
    requires Inv(s)
    ensures AdvanceEach(s, order).Some? && Quiet(AdvanceEach(s, order).value)
    decreases Work(s)
  {
    if Quiet(s) { return []; }
    var tid :| tid in s.txns && Active(s.txns[tid]);
    var free := SomeoneCanStep(s, tid);
    StepKeepsInv(s, free);
    StepWorks(s, free);
    var rest := CanDrain(Step(s, free));
    order := [free] + rest;
    assert order[1..] == rest;
  }
}
