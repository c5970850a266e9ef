/**
 * The Postgres backend as a concurrent machine.  A transaction is a program
 * counter over its SQL statements; `for update` and `update` take row locks
 * that last until the transaction ends; writes stay in private drafts until
 * commit; every read sees the latest committed row (READ COMMITTED).
 */
module PostgresSpendLedger {
  import opened Prelude
  import opened SpendModel

  type Tid = nat

  datatype LockRow = ReservationRow(r: ResKey) | BudgetRow(k: BudgetKey)

  /** The next statement a transaction will issue. */
  datatype Pc =
    | Begin
    | Locking(i: nat)
    | Checking
    | Writing(i: nat)
    | Recording
    | Committing
    | Finished(reply: Reply)

  datatype Txn = Txn(
    op: Op,
    pc: Pc,
    held: set<LockRow>,
    record: Option<Reservation>,
    seen: map<BudgetKey, Budget>,
    drafts: map<BudgetKey, Budget>,
    draft: Option<Reservation>)

  datatype System = System(committed: Ledger, locks: map<LockRow, Tid>, txns: map<Tid, Txn>)

  /** What the environment or the scheduler may do next. */
  datatype Action = Start(tid: Tid, op: Op) | Advance(tid: Tid) | Crash(tid: Tid)

  function NewTxn(op: Op): Txn { Txn(op, Begin, {}, None, map[], map[], None) }

  predicate Active(t: Txn) { !t.pc.Finished? }

  predicate ReadsRecord(op: Op) { op.Settle? || op.Release? }

  /** The budgets the transaction locks and updates, in lock order. */
  function BudgetList(t: Txn): seq<BudgetKey> {
    match t.op
    case SetCeiling(k, _) => [k]
    case Reserve(r, _, _, campaign) => BudgetsOf(r, campaign)
    case Settle(r, _) => if t.record.Some? then BudgetsOf(r, t.record.value.campaign) else []
    case Release(r) => if t.record.Some? then BudgetsOf(r, t.record.value.campaign) else []
  }

  /** How far the transaction moves each budget's two counters. */
  function Moved(t: Txn, b: Budget): Budget {
    match t.op
    case SetCeiling(_, ceiling) => b.(ceiling := ceiling)
    case Reserve(_, _, amount, _) => Shift(b, amount, 0)
    case Settle(_, actual) => Shift(b, -(if t.record.Some? then t.record.value.amount else 0), actual)
    case Release(_) => Shift(b, -(if t.record.Some? then t.record.value.amount else 0), 0)
  }

  /** The table's CHECK constraints on one budget row. */
  predicate Checks(b: Budget) { b.ceiling >= 0 && b.reserved >= 0 && b.settled >= 0 }

  /** The row lock the next statement must obtain, if it needs one. */
  function Wants(s: System, t: Txn): Option<LockRow> {
    match t.pc
    case Begin =>
      (match t.op
       case SetCeiling(k, _) => Some(BudgetRow(k))
       case Reserve(_, _, _, _) => None
       case Settle(r, _) => if r in s.committed.reservations then Some(ReservationRow(r)) else None
       case Release(r) => if r in s.committed.reservations then Some(ReservationRow(r)) else None)
    case Locking(i) =>
      if i < |BudgetList(t)| && BudgetList(t)[i] in s.committed.budgets then Some(BudgetRow(BudgetList(t)[i])) else None
    case _ => None
  }

  predicate Enabled(s: System, tid: Tid) {
    tid in s.txns && Active(s.txns[tid]) &&
    (Wants(s, s.txns[tid]).Some? ==> Wants(s, s.txns[tid]).value !in s.locks)
  }

  predicate Legal(s: System, a: Action) {
    match a
    case Start(tid, _) => tid !in s.txns
    case Advance(tid) => Enabled(s, tid)
    case Crash(tid) => tid in s.txns && Active(s.txns[tid])
  }

  function Unlock(locks: map<LockRow, Tid>, tid: Tid): map<LockRow, Tid> {
    map x | x in locks && locks[x] != tid :: locks[x]
  }

  /** The transaction ends, by return, exception or rollback, and gives up its locks. */
  function Finish(s: System, tid: Tid, committed: Ledger, reply: Reply): System
    requires tid in s.txns
  {
    System(committed, Unlock(s.locks, tid), s.txns[tid := s.txns[tid].(pc := Finished(reply), held := {})])
  }

  /** The transaction goes on, holding `row` as well. */
  function Take(s: System, tid: Tid, row: LockRow, t: Txn): System {
    System(s.committed, s.locks[row := tid], s.txns[tid := t.(held := t.held + {row})])
  }

  function Put(s: System, tid: Tid, t: Txn): System { s.(txns := s.txns[tid := t]) }

  function AfterLock(t: Txn, i: nat): Pc {
    if i < |BudgetList(t)| then Locking(i) else if t.op.Reserve? then Checking else Writing(0)
  }

  function AfterWrite(t: Txn, i: nat): Pc {
    if i < |BudgetList(t)| then Writing(i) else Recording
  }

  function StepBegin(s: System, tid: Tid): System
    requires Enabled(s, tid) && s.txns[tid].pc.Begin?
  {
    var t := s.txns[tid];
    match t.op
    case SetCeiling(k, ceiling) =>
      if ceiling < 0 then Finish(s, tid, s.committed, Refusal(CheckViolation))
      else Take(s, tid, BudgetRow(k),
                t.(drafts := map[k := WithCeiling(s.committed.budgets, k, ceiling)], pc := Committing))
    case Reserve(r, _, amount, _) =>
      if r in s.committed.reservations then
        var prior := s.committed.reservations[r];
        Finish(s, tid, s.committed, if prior.amount == amount then Row(prior) else Refusal(BoundToAnotherEstimate))
      else Put(s, tid, t.(pc := Locking(0)))
    case Settle(r, _) =>
      if r !in s.committed.reservations then Finish(s, tid, s.committed, Refusal(ReservationNotFound))
      else
        var row := s.committed.reservations[r];
        if row.status.Settled? then Finish(s, tid, s.committed, Row(row))
        else if row.status.Released? then Finish(s, tid, s.committed, Refusal(ReleasedCannotSettle))
        else Take(s, tid, ReservationRow(r), t.(record := Some(row), pc := Locking(0)))
    case Release(r) =>
      if r !in s.committed.reservations || s.committed.reservations[r].status != Reserved
      then Finish(s, tid, s.committed, Flag(false))
      else Take(s, tid, ReservationRow(r), t.(record := Some(s.committed.reservations[r]), pc := Locking(0)))
  }

  function StepLocking(s: System, tid: Tid): System
    requires Enabled(s, tid) && s.txns[tid].pc.Locking? && s.txns[tid].pc.i < |BudgetList(s.txns[tid])|
  {
    var t := s.txns[tid];
    var i := t.pc.i;
    var k := BudgetList(t)[i];
    if k in s.committed.budgets then
      Take(s, tid, BudgetRow(k), t.(seen := t.seen[k := s.committed.budgets[k]], pc := AfterLock(t, i + 1)))
    else if t.op.Reserve? then Finish(s, tid, s.committed, Refusal(BudgetUnavailable(k.kind)))
    else Put(s, tid, t.(pc := AfterLock(t, i + 1)))
  }

  function StepChecking(s: System, tid: Tid): System
    requires Enabled(s, tid) && s.txns[tid].pc.Checking? && s.txns[tid].op.Reserve?
  {
    var t := s.txns[tid];
    var admission := Admission(t.seen, t.op.r, t.op.campaign, t.op.amount);
    if admission != Stored then Finish(s, tid, s.committed, admission)
    else Put(s, tid, t.(pc := Writing(0)))
  }

  /** An update of a row that does not exist touches nothing. */
  function StepWriting(s: System, tid: Tid): System
    requires Enabled(s, tid) && s.txns[tid].pc.Writing? && s.txns[tid].pc.i < |BudgetList(s.txns[tid])|
  {
    var t := s.txns[tid];
    var i := t.pc.i;
    var k := BudgetList(t)[i];
    if k !in t.seen then Put(s, tid, t.(pc := AfterWrite(t, i + 1)))
    else if !Checks(Moved(t, t.seen[k])) then Finish(s, tid, s.committed, Refusal(CheckViolation))
    else Put(s, tid, t.(drafts := t.drafts[k := Moved(t, t.seen[k])], pc := AfterWrite(t, i + 1)))
  }

  function StepRecording(s: System, tid: Tid): System
    requires Enabled(s, tid) && s.txns[tid].pc.Recording?
  {
    var t := s.txns[tid];
    if t.op.Reserve? then
      if t.op.r in s.committed.reservations then Finish(s, tid, s.committed, Refusal(DuplicateKey))
      else if t.op.amount < 0 then Finish(s, tid, s.committed, Refusal(CheckViolation))
      else Put(s, tid, t.(draft := Some(Fresh(t.op)), pc := Committing))
    else Put(s, tid, t.(draft := DraftRecord(t), pc := Committing))
  }

  function DraftRecord(t: Txn): Option<Reservation> {
    if t.op.Reserve? then Some(Fresh(t.op))
    else if t.record.None? || t.op.SetCeiling? then None
    else if t.op.Settle? then Some(t.record.value.(actual := Some(t.op.actual), status := Settled))
    else Some(t.record.value.(status := Released))
  }

  /** What becomes visible to everyone when the transaction commits. */
  function Publish(l: Ledger, t: Txn): Ledger {
    Ledger(l.budgets + t.drafts,
           if t.draft.Some? && !t.op.SetCeiling? then l.reservations[t.op.r := t.draft.value] else l.reservations)
  }

  function CommitReply(t: Txn): Reply {
    if t.op.SetCeiling? then Stored
    else if t.op.Release? || t.draft.None? then Flag(true)
    else Row(t.draft.value)
  }

  function StepCommit(s: System, tid: Tid): System
    requires Enabled(s, tid) && s.txns[tid].pc.Committing?
  {
    Finish(s, tid, Publish(s.committed, s.txns[tid]), CommitReply(s.txns[tid]))
  }

  /** A statement index outside the budget list never arises; `TxnOk` says so. */
  function Step(s: System, tid: Tid): System
    requires Enabled(s, tid)
  {
    var t := s.txns[tid];
    match t.pc
    case Begin => StepBegin(s, tid)
    case Locking(i) => if i < |BudgetList(t)| then StepLocking(s, tid) else s
    case Checking => if t.op.Reserve? then StepChecking(s, tid) else s
    case Writing(i) => if i < |BudgetList(t)| then StepWriting(s, tid) else s
    case Recording => StepRecording(s, tid)
    case Committing => StepCommit(s, tid)
  }

  function Do(s: System, a: Action): System
    requires Legal(s, a)
  {
    match a
    case Start(tid, op) => s.(txns := s.txns[tid := NewTxn(op)])
    case Advance(tid) => Step(s, tid)
    case Crash(tid) => Finish(s, tid, s.committed, Refusal(Aborted))
  }

  const IDLE := System(EMPTY, map[], map[])

  /** The state a schedule reaches, if each action is legal where the earlier ones lead. */
  function Run(schedule: seq<Action>): Option<System> {
    if schedule == [] then Some(IDLE)
    else
      var before := Run(schedule[..|schedule| - 1]);
      var a := schedule[|schedule| - 1];
      if before.Some? && Legal(before.value, a) then Some(Do(before.value, a)) else None
  }

  // ----- the invariant -----------------------------------------------------

  function Prefix(keys: seq<BudgetKey>, n: nat): set<BudgetKey> { set j | 0 <= j < n && j < |keys| :: keys[j] }

  function All(t: Txn): set<BudgetKey> { Prefix(BudgetList(t), |BudgetList(t)|) }

  /** The rows a transaction has read under lock are still the committed ones. */
  predicate Current(l: Ledger, t: Txn) {
    (forall k :: k in t.seen ==> k in l.budgets && l.budgets[k] == t.seen[k]) &&
    (t.record.Some? ==> ReadsRecord(t.op) && t.op.r in l.reservations &&
                        l.reservations[t.op.r] == t.record.value && t.record.value.status.Reserved?)
  }

  function HeldRows(t: Txn): set<LockRow> {
    (set k | k in t.seen :: BudgetRow(k)) +
    (if t.op.SetCeiling? && t.pc.Committing? then {BudgetRow(t.op.budget)} else {}) +
    (if t.record.Some? && ReadsRecord(t.op) then {ReservationRow(t.op.r)} else {})
  }

  predicate Drafted(t: Txn, keys: set<BudgetKey>) {
    t.drafts.Keys == keys && keys <= t.seen.Keys &&
    forall k :: k in keys ==> t.drafts[k] == Moved(t, t.seen[k]) && Checks(t.drafts[k])
  }

  predicate Admitted(t: Txn) {
    t.op.Reserve? ==> forall k :: k in All(t) ==> Fits(t.seen, k, t.op.amount)
  }

  /** Where a transaction may be, and what it then knows. */
  predicate TxnOk(l: Ledger, t: Txn) {
    (Active(t) ==> Current(l, t) && t.held == HeldRows(t)) &&
    (ReadsRecord(t.op) && Active(t) && !t.pc.Begin? ==> t.record.Some?) &&
    match t.pc
    case Begin => t == NewTxn(t.op)
    case Locking(i) =>
      !t.op.SetCeiling? && i < |BudgetList(t)| && t.seen.Keys == Prefix(BudgetList(t), i) && t.drafts == map[] && t.draft.None?
    case Checking => t.op.Reserve? && t.seen.Keys == All(t) && t.drafts == map[] && t.draft.None?
    case Writing(i) =>
      !t.op.SetCeiling? && i < |BudgetList(t)| && t.seen.Keys == All(t) && Drafted(t, Prefix(BudgetList(t), i)) &&
      Admitted(t) && t.draft.None?
    case Recording =>
      !t.op.SetCeiling? && t.seen.Keys == All(t) && Drafted(t, All(t)) && Admitted(t) && t.draft.None?
    case Committing =>
      if t.op.SetCeiling? then
        t.seen == map[] && t.record.None? && t.draft.None? && t.op.ceiling >= 0 &&
        t.drafts == map[t.op.budget := WithCeiling(l.budgets, t.op.budget, t.op.ceiling)]
      else
        t.seen.Keys == All(t) && Drafted(t, All(t)) && Admitted(t) && t.draft == DraftRecord(t) && t.draft.Some? &&
        (t.op.Reserve? ==> t.op.r !in l.reservations && t.op.amount >= 0)
    case Finished(_) => t.held == {}
  }

  /** A lock is recorded for a transaction exactly when that transaction holds the row. */
  predicate LocksAgree(s: System) {
    (forall x :: x in s.locks ==> s.locks[x] in s.txns && x in s.txns[s.locks[x]].held) &&
    (forall tid, x :: tid in s.txns && x in s.txns[tid].held ==> x in s.locks && s.locks[x] == tid)
  }

  /** The CHECK constraints hold of every committed row. */
  predicate Sound(l: Ledger) {
    (forall r :: r in l.reservations ==> l.reservations[r].amount >= 0) &&
    (forall k :: k in l.budgets ==> Checks(l.budgets[k]))
  }

  ghost predicate LedgerOk(l: Ledger) { Conserved(l) && Sound(l) }

  predicate TxnsOk(l: Ledger, txns: map<Tid, Txn>) {
    forall tid :: tid in txns ==> TxnOk(l, txns[tid])
  }

  ghost predicate Inv(s: System) {
    LedgerOk(s.committed) && LocksAgree(s) && TxnsOk(s.committed, s.txns)
  }

  // ----- every step keeps it -----------------------------------------------

  lemma PutKeepsInv(s: System, tid: Tid, t: Txn)
    requires Inv(s) && tid in s.txns && t.held == s.txns[tid].held && TxnOk(s.committed, t)
    ensures Inv(Put(s, tid, t))
  {
    hide LedgerOk, TxnOk;
  }

  lemma TakeKeepsInv(s: System, tid: Tid, row: LockRow, t: Txn)
    requires Inv(s) && tid in s.txns && t.held == s.txns[tid].held && row !in s.locks
    requires TxnOk(s.committed, t.(held := t.held + {row}))
    ensures Inv(Take(s, tid, row, t))
  {
    hide LedgerOk, TxnOk;
    var s' := Take(s, tid, row, t);
    assert forall x :: x in s'.locks <==> x == row || x in s.locks;
  }

  lemma FinishUnlocks(s: System, tid: Tid, l: Ledger, reply: Reply)
    requires LocksAgree(s) && tid in s.txns
    ensures LocksAgree(Finish(s, tid, l, reply))
  {
  }

  lemma FinishedTxnOk(l: Ledger, t: Txn, reply: Reply)
    requires TxnOk(l, t)
    ensures TxnOk(l, t.(pc := Finished(reply), held := {}))
  {
  }

  lemma FinishKeepsInv(s: System, tid: Tid, reply: Reply)
    requires Inv(s) && tid in s.txns
    ensures Inv(Finish(s, tid, s.committed, reply))
  {
    hide LedgerOk, TxnOk;
    FinishUnlocks(s, tid, s.committed, reply);
    FinishedTxnOk(s.committed, s.txns[tid], reply);
  }

  lemma NewTxnOk(l: Ledger, op: Op)
    ensures TxnOk(l, NewTxn(op)) && NewTxn(op).held == {}
  {
  }

  lemma StartKeepsInv(s: System, tid: Tid, op: Op)
    requires Inv(s) && tid !in s.txns
    ensures Inv(Do(s, Start(tid, op)))
  {
    NewTxnOk(s.committed, op);
    hide LedgerOk, TxnOk, NewTxn;
    var s' := Do(s, Start(tid, op));
    assert forall x :: x in s.locks ==> s.locks[x] != tid;
  }

  lemma BeginKeepsInv(s: System, tid: Tid)
    requires Inv(s) && Enabled(s, tid) && s.txns[tid].pc.Begin?
    ensures Inv(Step(s, tid))
  {
    var t := s.txns[tid];
    match t.op {
      case SetCeiling(k, ceiling) =>
        if ceiling < 0 { FinishKeepsInv(s, tid, Refusal(CheckViolation)); }
        else {
          TakeKeepsInv(s, tid, BudgetRow(k),
            t.(drafts := map[k := WithCeiling(s.committed.budgets, k, ceiling)], pc := Committing));
        }
      case Reserve(r, _, amount, _) =>
        if r in s.committed.reservations {
          var prior := s.committed.reservations[r];
          FinishKeepsInv(s, tid, if prior.amount == amount then Row(prior) else Refusal(BoundToAnotherEstimate));
        } else { PutKeepsInv(s, tid, t.(pc := Locking(0))); }
      case Settle(r, _) =>
        if r !in s.committed.reservations { FinishKeepsInv(s, tid, Refusal(ReservationNotFound)); }
        else {
          var row := s.committed.reservations[r];
          if row.status.Settled? { FinishKeepsInv(s, tid, Row(row)); }
          else if row.status.Released? { FinishKeepsInv(s, tid, Refusal(ReleasedCannotSettle)); }
          else { TakeKeepsInv(s, tid, ReservationRow(r), t.(record := Some(row), pc := Locking(0))); }
        }
      case Release(r) =>
        if r !in s.committed.reservations || s.committed.reservations[r].status != Reserved {
          FinishKeepsInv(s, tid, Flag(false));
        } else {
          TakeKeepsInv(s, tid, ReservationRow(r), t.(record := Some(s.committed.reservations[r]), pc := Locking(0)));
        }
    }
  }

  lemma PrefixGrows(keys: seq<BudgetKey>, i: nat)
    requires i < |keys|
    ensures Prefix(keys, i + 1) == Prefix(keys, i) + {keys[i]}
  {
  }

  /** A reservation read under lock draws only on budgets that exist, so no lock statement misses. */
  lemma RecordedBudgetsExist(s: System, tid: Tid, i: nat)
    requires Inv(s) && tid in s.txns && s.txns[tid].pc.Locking? && !s.txns[tid].op.Reserve?
    requires i < |BudgetList(s.txns[tid])|
    ensures BudgetList(s.txns[tid])[i] in s.committed.budgets
  {
    var t := s.txns[tid];
    assert t.record.Some? && t.op.r in s.committed.reservations;
  }

  lemma LockedTxnOk(l: Ledger, t: Txn)
    requires TxnOk(l, t) && t.pc.Locking? && BudgetList(t)[t.pc.i] in l.budgets
    ensures var k := BudgetList(t)[t.pc.i];
            TxnOk(l, t.(seen := t.seen[k := l.budgets[k]], pc := AfterLock(t, t.pc.i + 1), held := t.held + {BudgetRow(k)}))
  {
    var i := t.pc.i;
    var k := BudgetList(t)[i];
    var t' := t.(seen := t.seen[k := l.budgets[k]], pc := AfterLock(t, i + 1), held := t.held + {BudgetRow(k)});
    PrefixGrows(BudgetList(t), i);
    assert BudgetList(t') == BudgetList(t);
    assert HeldRows(t') == HeldRows(t) + {BudgetRow(k)};
    assert Prefix(BudgetList(t), 0) == {};
    assert t'.seen.Keys == Prefix(BudgetList(t), i + 1);
  }

  lemma LockingKeepsInv(s: System, tid: Tid)
    requires Inv(s) && Enabled(s, tid) && s.txns[tid].pc.Locking?
    ensures Inv(Step(s, tid))
  {
    var t := s.txns[tid];
    var i := t.pc.i;
    var k := BudgetList(t)[i];
    if k in s.committed.budgets {
      LockedTxnOk(s.committed, t);
      hide Inv, TxnOk;
      TakeKeepsInv(s, tid, BudgetRow(k), t.(seen := t.seen[k := s.committed.budgets[k]], pc := AfterLock(t, i + 1)));
    } else if t.op.Reserve? {
      hide Inv, TxnOk;
      FinishKeepsInv(s, tid, Refusal(BudgetUnavailable(k.kind)));
    } else {
      RecordedBudgetsExist(s, tid, i);
    }
  }

  lemma CheckedTxnOk(l: Ledger, t: Txn)
    requires TxnOk(l, t) && t.pc.Checking? && Admission(t.seen, t.op.r, t.op.campaign, t.op.amount) == Stored
    ensures TxnOk(l, t.(pc := Writing(0)))
  {
    var t' := t.(pc := Writing(0));
    assert Prefix(BudgetList(t), 0) == {};
    assert BudgetList(t') == BudgetList(t);
    assert forall k :: k in All(t) ==> k in KeysOf(t.op.r, t.op.campaign);
  }

  lemma CheckingKeepsInv(s: System, tid: Tid)
    requires Inv(s) && Enabled(s, tid) && s.txns[tid].pc.Checking?
    ensures Inv(Step(s, tid))
  {
    var t := s.txns[tid];
    var admission := Admission(t.seen, t.op.r, t.op.campaign, t.op.amount);
    if admission != Stored {
      hide Inv, TxnOk;
      FinishKeepsInv(s, tid, admission);
    } else {
      CheckedTxnOk(s.committed, t);
      hide Inv, TxnOk;
      PutKeepsInv(s, tid, t.(pc := Writing(0)));
    }
  }

  lemma WrittenTxnOk(l: Ledger, t: Txn)
    requires TxnOk(l, t) && t.pc.Writing?
    ensures var k := BudgetList(t)[t.pc.i];
            k in t.seen &&
            (Checks(Moved(t, t.seen[k])) ==>
              TxnOk(l, t.(drafts := t.drafts[k := Moved(t, t.seen[k])], pc := AfterWrite(t, t.pc.i + 1))))
  {
    var i := t.pc.i;
    var k := BudgetList(t)[i];
    assert k in All(t);
    PrefixGrows(BudgetList(t), i);
    var t' := t.(drafts := t.drafts[k := Moved(t, t.seen[k])], pc := AfterWrite(t, i + 1));
    assert BudgetList(t') == BudgetList(t) && HeldRows(t') == HeldRows(t) && All(t') == All(t);
    if Checks(Moved(t, t.seen[k])) {
      assert forall b :: Moved(t', b) == Moved(t, b);
      assert Drafted(t', Prefix(BudgetList(t), i + 1));
    }
  }

  lemma WritingKeepsInv(s: System, tid: Tid)
    requires Inv(s) && Enabled(s, tid) && s.txns[tid].pc.Writing?
    ensures Inv(Step(s, tid))
  {
    var t := s.txns[tid];
    assert TxnOk(s.committed, t) && t.pc.i < |BudgetList(t)|;
    var k := BudgetList(t)[t.pc.i];
    hide Inv, TxnOk, Moved, Checks;
    WrittenTxnOk(s.committed, t);
    if !Checks(Moved(t, t.seen[k])) { FinishKeepsInv(s, tid, Refusal(CheckViolation)); }
    else { PutKeepsInv(s, tid, t.(drafts := t.drafts[k := Moved(t, t.seen[k])], pc := AfterWrite(t, t.pc.i + 1))); }
  }

  lemma RecordedTxnOk(l: Ledger, t: Txn)
    requires TxnOk(l, t) && t.pc.Recording? && (t.op.Reserve? ==> t.op.r !in l.reservations && t.op.amount >= 0)
    ensures TxnOk(l, t.(draft := DraftRecord(t), pc := Committing))
  {
    var t' := t.(draft := DraftRecord(t), pc := Committing);
    assert BudgetList(t') == BudgetList(t) && HeldRows(t') == HeldRows(t) && All(t') == All(t);
    assert forall b :: Moved(t', b) == Moved(t, b);
  }

  lemma RecordingKeepsInv(s: System, tid: Tid)
    requires Inv(s) && Enabled(s, tid) && s.txns[tid].pc.Recording?
    ensures Inv(Step(s, tid))
  {
    var t := s.txns[tid];
    assert TxnOk(s.committed, t);
    hide Inv, TxnOk;
    if t.op.Reserve? && t.op.r in s.committed.reservations { FinishKeepsInv(s, tid, Refusal(DuplicateKey)); }
    else if t.op.Reserve? && t.op.amount < 0 { FinishKeepsInv(s, tid, Refusal(CheckViolation)); }
    else {
      RecordedTxnOk(s.committed, t);
      PutKeepsInv(s, tid, t.(draft := DraftRecord(t), pc := Committing));
    }
  }

  // ----- commits are serial ------------------------------------------------

  lemma AllKeys(t: Txn)
    requires t.op.Reserve? || (ReadsRecord(t.op) && t.record.Some?)
    ensures All(t) == KeysOf(t.op.r, if t.op.Reserve? then t.op.campaign else t.record.value.campaign)
  {
    var keys := BudgetList(t);
    assert forall k :: k in All(t) <==> k in keys;
  }

  /** Publishing a transaction's drafts is exactly the serial call on the ledger it commits onto. */
  lemma CommitIsApply(l: Ledger, t: Txn)
    requires TxnOk(l, t) && t.pc.Committing?
    ensures (Publish(l, t), CommitReply(t)) == Apply(l, t.op)
  {
    match t.op {
      case SetCeiling(k, ceiling) =>
        assert l.budgets + t.drafts == l.budgets[k := WithCeiling(l.budgets, k, ceiling)];
      case Reserve(r, _, amount, campaign) =>
        assert forall k :: k in All(t) ==> Fits(l.budgets, k, amount);
        DraftsAdjust(l, t, amount, 0);
      case Settle(r, actual) => DraftsAdjust(l, t, -t.record.value.amount, actual);
      case Release(r) => DraftsAdjust(l, t, -t.record.value.amount, 0);
    }
  }

  lemma DraftsAdjust(l: Ledger, t: Txn, reserved: int, settled: int)
    requires Current(l, t) && Drafted(t, All(t)) && !t.op.SetCeiling? && (ReadsRecord(t.op) ==> t.record.Some?)
    requires forall b :: Moved(t, b) == Shift(b, reserved, settled)
    ensures l.budgets + t.drafts ==
            Adjust(l.budgets, KeysOf(t.op.r, if t.op.Reserve? then t.op.campaign else t.record.value.campaign), reserved, settled)
    ensures All(t) == KeysOf(t.op.r, if t.op.Reserve? then t.op.campaign else t.record.value.campaign)
  {
    AllKeys(t);
    assert All(t) <= l.budgets.Keys;
  }

  lemma CommitKeepsSound(l: Ledger, t: Txn)
    requires Sound(l) && TxnOk(l, t) && t.pc.Committing?
    ensures Sound(Publish(l, t))
  {
    var l' := Publish(l, t);
    forall k | k in l'.budgets ensures Checks(l'.budgets[k]) {
      if k !in t.drafts { assert l'.budgets[k] == l.budgets[k]; }
    }
    forall r | r in l'.reservations ensures l'.reservations[r].amount >= 0 {
      if t.op.SetCeiling? || r != t.op.r { assert l'.reservations[r] == l.reservations[r]; }
    }
  }

  lemma CommitKeepsLedgerOk(l: Ledger, t: Txn)
    requires LedgerOk(l) && TxnOk(l, t) && t.pc.Committing?
    ensures LedgerOk(Publish(l, t))
  {
    CommitKeepsSound(l, t);
    CommitIsApply(l, t);
    hide TxnOk, Conserved, Sound;
    ApplyConserves(l, t.op);
  }

  /**
   * What one commit cannot disturb: a transaction holding none of the
   * committer's rows still knows current rows, and its pending insert is still
   * fresh, because two inserts under one id would share the account's lock.
   */
  lemma OthersSurvive(l: Ledger, t: Txn, other: Txn)
    requires TxnOk(l, t) && t.pc.Committing? && TxnOk(l, other) && t.held !! other.held
    ensures TxnOk(Publish(l, t), other)
  {
    if Active(other) {
      CommitterHolds(l, t);
      CurrentSurvives(l, t, other);
      if other.pc.Committing? && other.op.SetCeiling? {
        assert BudgetRow(other.op.budget) in other.held;
      }
      if other.pc.Committing? && other.op.Reserve? {
        InserterHolds(l, other);
      }
    }
  }

  /** A committing transaction holds the lock of every row it is about to change. */
  lemma CommitterHolds(l: Ledger, t: Txn)
    requires TxnOk(l, t) && t.pc.Committing?
    ensures forall k :: k in t.drafts ==> BudgetRow(k) in t.held
    ensures ReadsRecord(t.op) ==> ReservationRow(t.op.r) in t.held && t.op.r in l.reservations
    ensures t.op.Reserve? ==> BudgetRow(AccountOf(t.op.r)) in t.held && t.op.r !in l.reservations
  {
    if t.op.Reserve? { InserterHolds(l, t); }
  }

  lemma InserterHolds(l: Ledger, t: Txn)
    requires TxnOk(l, t) && t.pc.Committing? && t.op.Reserve?
    ensures BudgetRow(AccountOf(t.op.r)) in t.held
  {
    AllKeys(t);
    assert AccountOf(t.op.r) in t.seen;
  }

  lemma CurrentSurvives(l: Ledger, t: Txn, other: Txn)
    requires Current(l, other) && other.held == HeldRows(other) && t.held !! other.held
    requires forall k :: k in t.drafts ==> BudgetRow(k) in t.held
    requires ReadsRecord(t.op) ==> ReservationRow(t.op.r) in t.held
    requires t.op.Reserve? ==> t.op.r !in l.reservations
    ensures Current(Publish(l, t), other)
  {
    forall k | k in other.seen ensures k !in t.drafts {
      assert BudgetRow(k) in other.held;
    }
    if other.record.Some? {
      assert ReservationRow(other.op.r) in other.held;
    }
  }

  lemma HeldApart(s: System, a: Tid, b: Tid)
    requires LocksAgree(s) && a in s.txns && b in s.txns && a != b
    ensures s.txns[a].held !! s.txns[b].held
  {
    forall x | x in s.txns[a].held ensures x !in s.txns[b].held {
      assert s.locks[x] == a;
    }
  }

  lemma CommitKeepsInv(s: System, tid: Tid)
    requires Inv(s) && Enabled(s, tid) && s.txns[tid].pc.Committing?
    ensures Inv(Step(s, tid))
  {
    var t := s.txns[tid];
    var l' := Publish(s.committed, t);
    var s' := Step(s, tid);
    CommitKeepsLedgerOk(s.committed, t);
    FinishUnlocks(s, tid, l', CommitReply(t));
    forall id | id in s'.txns ensures TxnOk(l', s'.txns[id]) {
      if id != tid {
        HeldApart(s, tid, id);
        OthersSurvive(s.committed, t, s.txns[id]);
      }
    }
  }

  lemma StepKeepsInv(s: System, tid: Tid)
    requires Inv(s) && Enabled(s, tid)
    ensures Inv(Step(s, tid))
  {
    hide Inv;
    match s.txns[tid].pc {
      case Begin => BeginKeepsInv(s, tid);
      case Locking(_) => LockingKeepsInv(s, tid);
      case Checking => CheckingKeepsInv(s, tid);
      case Writing(_) => WritingKeepsInv(s, tid);
      case Recording => RecordingKeepsInv(s, tid);
      case Committing => CommitKeepsInv(s, tid);
    }
  }

  lemma ActionKeepsInv(s: System, a: Action)
    requires Inv(s) && Legal(s, a)
    ensures Inv(Do(s, a))
  {
    hide Inv;
    match a {
      case Start(tid, op) => StartKeepsInv(s, tid, op);
      case Advance(tid) => StepKeepsInv(s, tid);
      case Crash(tid) => FinishKeepsInv(s, tid, Refusal(Aborted));
    }
  }

  /** In every interleaving of every transactions, conservation and the locking discipline hold throughout. */
  lemma {:induction false} RunKeepsInv(schedule: seq<Action>)
    requires Run(schedule).Some?
    ensures Inv(Run(schedule).value)
    ensures Conserved(Run(schedule).value.committed)
  {
    if schedule != [] {
      RunKeepsInv(schedule[..|schedule| - 1]);
      ActionKeepsInv(Run(schedule[..|schedule| - 1]).value, schedule[|schedule| - 1]);
    }
  }
}
