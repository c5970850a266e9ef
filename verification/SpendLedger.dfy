/**
 * The spend ledger as one abstract machine: budgets, reservations, and the
 * serial meaning of set_ceiling, reserve, settle and release.  Both storage
 * backends are proved against `Apply`; the money laws are proved about it.
 */
module SpendModel {
  import opened Prelude

  datatype Kind = Account | Campaign
  datatype BudgetKey = BudgetKey(tenant: string, kind: Kind, id: string)
  datatype ResKey = ResKey(tenant: string, id: string)

  datatype Budget = Budget(ceiling: int, reserved: int, settled: int) {
    function Used(): int { reserved + settled }
    function Available(): int { ceiling - reserved - settled }
  }

  datatype Status = Reserved | Settled | Released

  datatype Reservation = Reservation(
    campaign: Option<string>, channel: string, amount: int, actual: Option<int>, status: Status)

  datatype Ledger = Ledger(budgets: map<BudgetKey, Budget>, reservations: map<ResKey, Reservation>)

  datatype Op =
    | SetCeiling(budget: BudgetKey, ceiling: int)
    | Reserve(r: ResKey, channel: string, amount: int, campaign: Option<string>)
    | Settle(r: ResKey, actual: int)
    | Release(r: ResKey)

  /** Why a call raised.  The two ceiling reasons share one exception type. */
  datatype Reason =
    | BoundToAnotherEstimate
    | BudgetUnavailable(kind: Kind)
    | CeilingExhausted(kind: Kind)
    | ReservationNotFound
    | ReleasedCannotSettle
    | DuplicateKey
    | CheckViolation
    | Aborted

  datatype Reply = Stored | Row(row: Reservation) | Flag(ok: bool) | Refusal(reason: Reason)

  predicate OverCeiling(reply: Reply) {
    reply.Refusal? && (reply.reason.BudgetUnavailable? || reply.reason.CeilingExhausted?)
  }

  /** Two replies a caller cannot tell apart by exception type or returned value. */
  predicate SameReply(a: Reply, b: Reply) {
    a == b || (OverCeiling(a) && OverCeiling(b))
  }

  function AccountOf(r: ResKey): BudgetKey { BudgetKey(r.tenant, Account, r.tenant) }

  /** A missing or empty campaign id names no campaign budget. */
  predicate NamesCampaign(campaign: Option<string>) { campaign.Some? && campaign.value != "" }

  function CampaignOf(r: ResKey, campaign: Option<string>): BudgetKey
    requires NamesCampaign(campaign)
  {
    BudgetKey(r.tenant, Campaign, campaign.value)
  }

  /** The budgets a reservation draws on, account first: the order every statement follows. */
  function BudgetsOf(r: ResKey, campaign: Option<string>): (keys: seq<BudgetKey>)
    ensures forall k :: k in keys <==> k in KeysOf(r, campaign)
    ensures 1 <= |keys| <= 2 && keys[0] == AccountOf(r) && (|keys| == 2 ==> keys[1].kind.Campaign?)
  {
    if NamesCampaign(campaign) then [AccountOf(r), CampaignOf(r, campaign)] else [AccountOf(r)]
  }

  function KeysOf(r: ResKey, campaign: Option<string>): set<BudgetKey> {
    if NamesCampaign(campaign) then {AccountOf(r), CampaignOf(r, campaign)} else {AccountOf(r)}
  }

  function Shift(b: Budget, reserved: int, settled: int): Budget {
    Budget(b.ceiling, b.reserved + reserved, b.settled + settled)
  }

  /** Every existing budget named in `keys` moves by the same two amounts. */
  function Adjust(budgets: map<BudgetKey, Budget>, keys: set<BudgetKey>, reserved: int, settled: int)
    : map<BudgetKey, Budget>
  {
    map k | k in budgets :: if k in keys then Shift(budgets[k], reserved, settled) else budgets[k]
  }

  function WithCeiling(budgets: map<BudgetKey, Budget>, k: BudgetKey, ceiling: int): Budget {
    if k in budgets then budgets[k].(ceiling := ceiling) else Budget(ceiling, 0, 0)
  }

  predicate Fits(budgets: map<BudgetKey, Budget>, k: BudgetKey, amount: int) {
    k in budgets && amount <= budgets[k].Available()
  }

  function RefusalAt(budgets: map<BudgetKey, Budget>, k: BudgetKey): Reply {
    Refusal(if k in budgets then CeilingExhausted(k.kind) else BudgetUnavailable(k.kind))
  }

  /** The first budget in order that refuses `amount`, with its reason; `Stored` when none does. */
  function Admission(budgets: map<BudgetKey, Budget>, r: ResKey, campaign: Option<string>, amount: int)
    : (reply: Reply)
    ensures reply == Stored || OverCeiling(reply)
    ensures reply == Stored <==> forall k :: k in KeysOf(r, campaign) ==> Fits(budgets, k, amount)
  {
    if !Fits(budgets, AccountOf(r), amount) then RefusalAt(budgets, AccountOf(r))
    else if NamesCampaign(campaign) && !Fits(budgets, CampaignOf(r, campaign), amount)
    then RefusalAt(budgets, CampaignOf(r, campaign))
    else Stored
  }

  function Fresh(op: Op): Reservation
    requires op.Reserve?
  {
    Reservation(op.campaign, op.channel, op.amount, None, Reserved)
  }

  /** One call run to completion with nothing else in between. */
  function Apply(l: Ledger, op: Op): (Ledger, Reply) {
    match op
    case SetCeiling(k, ceiling) =>
      (l.(budgets := l.budgets[k := WithCeiling(l.budgets, k, ceiling)]), Stored)
    case Reserve(r, _, amount, campaign) =>
      if r in l.reservations then
        (l, if l.reservations[r].amount == amount then Row(l.reservations[r]) else Refusal(BoundToAnotherEstimate))
      else
        var admission := Admission(l.budgets, r, campaign, amount);
        if admission != Stored then (l, admission)
        else (Ledger(Adjust(l.budgets, KeysOf(r, campaign), amount, 0), l.reservations[r := Fresh(op)]), Row(Fresh(op)))
    case Settle(r, actual) =>
      if r !in l.reservations then (l, Refusal(ReservationNotFound))
      else
        var row := l.reservations[r];
        if row.status.Settled? then (l, Row(row))
        else if row.status.Released? then (l, Refusal(ReleasedCannotSettle))
        else
          var row' := row.(actual := Some(actual), status := Settled);
          (Ledger(Adjust(l.budgets, KeysOf(r, row.campaign), -row.amount, actual), l.reservations[r := row']),
           Row(row'))
    case Release(r) =>
      if r !in l.reservations || l.reservations[r].status != Reserved then (l, Flag(false))
      else
        var row := l.reservations[r];
        (Ledger(Adjust(l.budgets, KeysOf(r, row.campaign), -row.amount, 0),
                l.reservations[r := row.(status := Released)]),
         Flag(true))
  }

  function ApplyAll(l: Ledger, ops: seq<Op>): Ledger {
    if ops == [] then l else Apply(ApplyAll(l, ops[..|ops| - 1]), ops[|ops| - 1]).0
  }

  const EMPTY := Ledger(map[], map[])

  // ----- what each call does, field by field -------------------------------

  /** Every budget but those of `tenant` that a campaign choice names is as it was. */
  predicate OthersAsBefore(before: Ledger, after: Ledger, tenant: string, campaign: Option<string>) {
    after.budgets.Keys == before.budgets.Keys &&
    forall k :: k in before.budgets && k != BudgetKey(tenant, Account, tenant) &&
                !(campaign.Some? && campaign.value != "" && k == BudgetKey(tenant, Campaign, campaign.value)) ==>
      after.budgets[k] == before.budgets[k]
  }

  /** Budget `k`, where it exists, kept its ceiling and moved its counters by these amounts. */
  predicate MovedBy(before: Ledger, after: Ledger, k: BudgetKey, reserved: int, settled: int) {
    k in before.budgets ==>
      k in after.budgets && after.budgets[k].ceiling == before.budgets[k].ceiling &&
      after.budgets[k].reserved == before.budgets[k].reserved + reserved &&
      after.budgets[k].settled == before.budgets[k].settled + settled
  }

  /** The account, and the campaign if one is named, moved together; nothing else did. */
  predicate BothMovedBy(before: Ledger, after: Ledger, tenant: string, campaign: Option<string>, reserved: int, settled: int) {
    MovedBy(before, after, BudgetKey(tenant, Account, tenant), reserved, settled) &&
    (campaign.Some? && campaign.value != "" ==>
      MovedBy(before, after, BudgetKey(tenant, Campaign, campaign.value), reserved, settled)) &&
    OthersAsBefore(before, after, tenant, campaign)
  }

  /** The ceiling becomes the one given, up or down; what is reserved and settled stays, or starts at nothing. */
  lemma SetCeilingMeans(l: Ledger, k: BudgetKey, ceiling: int)
    ensures var (after, reply) := Apply(l, SetCeiling(k, ceiling));
            reply == Stored && after.reservations == l.reservations && after.budgets.Keys == l.budgets.Keys + {k} &&
            after.budgets[k].ceiling == ceiling &&
            (k in l.budgets ==>
              after.budgets[k].reserved == l.budgets[k].reserved && after.budgets[k].settled == l.budgets[k].settled) &&
            (k !in l.budgets ==> after.budgets[k].reserved == 0 && after.budgets[k].settled == 0) &&
            forall x :: x in l.budgets && x != k ==> after.budgets[x] == l.budgets[x]
  {
  }

  predicate HasRoom(l: Ledger, k: BudgetKey, amount: int) {
    k in l.budgets && l.budgets[k].reserved + l.budgets[k].settled + amount <= l.budgets[k].ceiling
  }

  /**
   * A known id replays its row for the same amount and refuses another amount; a
   * new one is charged exactly when the account, and the campaign if one is
   * named, has room.
   */
  lemma ReserveMeans(l: Ledger, r: ResKey, channel: string, amount: int, campaign: Option<string>)
    ensures var (after, reply) := Apply(l, Reserve(r, channel, amount, campaign));
            r in l.reservations ==>
              after == l &&
              reply == if l.reservations[r].amount == amount then Row(l.reservations[r]) else Refusal(BoundToAnotherEstimate)
    ensures var (after, reply) := Apply(l, Reserve(r, channel, amount, campaign));
            r !in l.reservations ==>
              if HasRoom(l, BudgetKey(r.tenant, Account, r.tenant), amount) &&
                 (campaign.Some? && campaign.value != "" ==> HasRoom(l, BudgetKey(r.tenant, Campaign, campaign.value), amount))
              then
                var row := Reservation(campaign, channel, amount, None, Reserved);
                reply == Row(row) && after.reservations == l.reservations[r := row] &&
                BothMovedBy(l, after, r.tenant, campaign, amount, 0)
              else
                after == l && reply == Refusal(
                  if !HasRoom(l, BudgetKey(r.tenant, Account, r.tenant), amount)
                  then (if BudgetKey(r.tenant, Account, r.tenant) in l.budgets then CeilingExhausted(Account) else BudgetUnavailable(Account))
                  else if BudgetKey(r.tenant, Campaign, campaign.value) in l.budgets
                  then CeilingExhausted(Campaign) else BudgetUnavailable(Campaign))
  {
  }

  /** The reserved amount leaves the counter it was in, the actual one enters the other, and the row remembers it. */
  lemma SettleMeans(l: Ledger, r: ResKey, actual: int)
    ensures var (after, reply) := Apply(l, Settle(r, actual));
            if r !in l.reservations then after == l && reply == Refusal(ReservationNotFound)
            else
              var row := l.reservations[r];
              match row.status
              case Settled => after == l && reply == Row(row)
              case Released => after == l && reply == Refusal(ReleasedCannotSettle)
              case Reserved =>
                var row' := Reservation(row.campaign, row.channel, row.amount, Some(actual), Settled);
                reply == Row(row') && after.reservations == l.reservations[r := row'] &&
                BothMovedBy(l, after, r.tenant, row.campaign, -row.amount, actual)
  {
  }

  /** What was reserved is given back, once. */
  lemma ReleaseMeans(l: Ledger, r: ResKey)
    ensures var (after, reply) := Apply(l, Release(r));
            if r in l.reservations && l.reservations[r].status == Reserved then
              var row := l.reservations[r];
              reply == Flag(true) &&
              after.reservations == l.reservations[r := Reservation(row.campaign, row.channel, row.amount, row.actual, Released)] &&
              BothMovedBy(l, after, r.tenant, row.campaign, -row.amount, 0)
            else after == l && reply == Flag(false)
  {
  }

  // ----- conservation ------------------------------------------------------

  /** What one reservation still holds against budget `k`. */
  function HeldBy(r: ResKey, row: Reservation, k: BudgetKey): int {
    if k in KeysOf(r, row.campaign) && row.status.Reserved? then row.amount else 0
  }

  /** What one reservation has spent from budget `k`. */
  function SpentBy(r: ResKey, row: Reservation, k: BudgetKey): int {
    if k in KeysOf(r, row.campaign) && row.status.Settled? && row.actual.Some? then row.actual.value else 0
  }

  function Held(l: Ledger, k: BudgetKey): map<ResKey, int> {
    map r | r in l.reservations :: HeldBy(r, l.reservations[r], k)
  }

  function Spent(l: Ledger, k: BudgetKey): map<ResKey, int> {
    map r | r in l.reservations :: SpentBy(r, l.reservations[r], k)
  }

  ghost predicate Balanced(l: Ledger, k: BudgetKey) {
    k in l.budgets &&
    l.budgets[k].reserved == Total(Held(l, k)) &&
    l.budgets[k].settled == Total(Spent(l, k))
  }

  predicate WellFormedRow(row: Reservation) { row.status.Settled? <==> row.actual.Some? }

  /** Counters equal the reservations behind them, and every reservation's budgets exist. */
  ghost predicate Conserved(l: Ledger) {
    (forall k :: k in l.budgets ==> Balanced(l, k)) &&
    (forall r :: r in l.reservations ==> WellFormedRow(l.reservations[r])) &&
    (forall r, k :: r in l.reservations && k in KeysOf(r, l.reservations[r].campaign) ==> k in l.budgets)
  }

  /** Replacing or adding one reservation moves each balance by that row's own difference. */
  lemma BalanceAfterRow(l: Ledger, l': Ledger, r: ResKey, row: Reservation, k: BudgetKey)
    requires Balanced(l, k) && k in l'.budgets
    requires l'.reservations == l.reservations[r := row]
    requires l'.budgets[k].reserved ==
             l.budgets[k].reserved - (if r in l.reservations then HeldBy(r, l.reservations[r], k) else 0) + HeldBy(r, row, k)
    requires l'.budgets[k].settled ==
             l.budgets[k].settled - (if r in l.reservations then SpentBy(r, l.reservations[r], k) else 0) + SpentBy(r, row, k)
    ensures Balanced(l', k)
  {
    assert Held(l', k) == Held(l, k)[r := HeldBy(r, row, k)];
    assert Spent(l', k) == Spent(l, k)[r := SpentBy(r, row, k)];
    TotalWrite(Held(l, k), r, HeldBy(r, row, k));
    TotalWrite(Spent(l, k), r, SpentBy(r, row, k));
  }

  /** The untouched half of a balance: a budget that no reservation names sums to zero. */
  lemma NewBudgetIsBalanced(l: Ledger, l': Ledger, k: BudgetKey)
    requires Conserved(l) && k !in l.budgets
    requires l'.reservations == l.reservations && k in l'.budgets
    requires l'.budgets[k].reserved == 0 && l'.budgets[k].settled == 0
    ensures Balanced(l', k)
  {
    TotalZero(Held(l', k));
    TotalZero(Spent(l', k));
  }

  /** A row written together with the matching adjustment of the budgets it draws on. */
  lemma RowWriteConserves(l: Ledger, l': Ledger, r: ResKey, row: Reservation, reserved: int, settled: int)
    requires Conserved(l) && WellFormedRow(row)
    requires l'.reservations == l.reservations[r := row]
    requires l'.budgets == Adjust(l.budgets, KeysOf(r, row.campaign), reserved, settled)
    requires forall k :: k in KeysOf(r, row.campaign) ==> k in l.budgets
    requires r in l.reservations ==> row.campaign == l.reservations[r].campaign
    requires forall k :: k in KeysOf(r, row.campaign) ==>
      && reserved == HeldBy(r, row, k) - (if r in l.reservations then HeldBy(r, l.reservations[r], k) else 0)
      && settled == SpentBy(r, row, k) - (if r in l.reservations then SpentBy(r, l.reservations[r], k) else 0)
    ensures Conserved(l')
  {
    forall k | k in l'.budgets ensures Balanced(l', k) {
      BalanceAfterRow(l, l', r, row, k);
    }
  }

  lemma SetCeilingConserves(l: Ledger, op: Op)
    requires Conserved(l) && op.SetCeiling?
    ensures Conserved(Apply(l, op).0)
  {
    var l' := Apply(l, op).0;
    forall k | k in l'.budgets ensures Balanced(l', k) {
      if k in l.budgets {
        assert Balanced(l, k);
        assert Held(l', k) == Held(l, k) && Spent(l', k) == Spent(l, k);
      } else {
        NewBudgetIsBalanced(l, l', k);
      }
    }
  }

  lemma ReserveConserves(l: Ledger, op: Op)
    requires Conserved(l) && op.Reserve?
    ensures Conserved(Apply(l, op).0)
  {
    var admission := Admission(l.budgets, op.r, op.campaign, op.amount);
    if op.r !in l.reservations && admission == Stored {
      RowWriteConserves(l, Apply(l, op).0, op.r, Fresh(op), op.amount, 0);
    }
  }

  lemma SettleConserves(l: Ledger, op: Op)
    requires Conserved(l) && op.Settle?
    ensures Conserved(Apply(l, op).0)
  {
    if op.r in l.reservations && l.reservations[op.r].status.Reserved? {
      var row := l.reservations[op.r];
      RowWriteConserves(l, Apply(l, op).0, op.r, row.(actual := Some(op.actual), status := Settled), -row.amount, op.actual);
    }
  }

  lemma ReleaseConserves(l: Ledger, op: Op)
    requires Conserved(l) && op.Release?
    ensures Conserved(Apply(l, op).0)
  {
    if op.r in l.reservations && l.reservations[op.r].status.Reserved? {
      var row := l.reservations[op.r];
      RowWriteConserves(l, Apply(l, op).0, op.r, row.(status := Released), -row.amount, 0);
    }
  }

  /** Every call keeps every counter equal to the reservations behind it. */
  lemma ApplyConserves(l: Ledger, op: Op)
    requires Conserved(l)
    ensures Conserved(Apply(l, op).0)
  {
    hide Conserved;
    match op {
      case SetCeiling(_, _) => SetCeilingConserves(l, op);
      case Reserve(_, _, _, _) => ReserveConserves(l, op);
      case Settle(_, _) => SettleConserves(l, op);
      case Release(_) => ReleaseConserves(l, op);
    }
  }

  /** In every serial run from the empty ledger, conservation holds. */
  lemma {:induction false} RunConserves(ops: seq<Op>)
    ensures Conserved(ApplyAll(EMPTY, ops))
  {
    if ops != [] {
      RunConserves(ops[..|ops| - 1]);
      ApplyConserves(ApplyAll(EMPTY, ops[..|ops| - 1]), ops[|ops| - 1]);
    }
  }

  // ----- redelivery and absorption ----------------------------------------

  predicate Succeeded(op: Op, reply: Reply) {
    match op
    case Reserve(_, _, _, _) => reply.Row?
    case Settle(_, _) => reply.Row?
    case Release(_) => reply == Flag(true)
    case SetCeiling(_, _) => false
  }

  /** What never changes about a row, and where its status may go. */
  predicate Evolves(before: Reservation, after: Reservation) {
    after.campaign == before.campaign && after.channel == before.channel && after.amount == before.amount &&
    (before.status.Reserved? || after == before)
  }

  /** Rows are never dropped, keep what they were charged for, and settled/released rows are frozen. */
  lemma {:induction false} RowsEvolve(l: Ledger, ops: seq<Op>, r: ResKey)
    requires r in l.reservations
    ensures r in ApplyAll(l, ops).reservations
    ensures Evolves(l.reservations[r], ApplyAll(l, ops).reservations[r])
  {
    if ops != [] {
      RowsEvolve(l, ops[..|ops| - 1], r);
    }
  }

  /**
   * A reserve, settle or release that succeeded may be delivered again after
   * any further calls: the ledger stays exactly as it is, and the repeated
   * reserve or settle is answered with the stored row.
   */
  lemma {:induction false} RedeliveryChangesNothing(l: Ledger, op: Op, between: seq<Op>)
    requires Succeeded(op, Apply(l, op).1)
    ensures var now := ApplyAll(Apply(l, op).0, between);
            Apply(now, op).0 == now &&
            op.r in now.reservations &&
            (op.Reserve? ==> Apply(now, op).1 == Row(now.reservations[op.r])) &&
            (op.Settle? ==> Apply(now, op).1 == Row(now.reservations[op.r]) && now.reservations[op.r].status.Settled?) &&
            (op.Release? ==> Apply(now, op).1 == Flag(false) && now.reservations[op.r].status.Released?)
  {
    RowsEvolve(Apply(l, op).0, between, op.r);
  }

  // ----- ceilings ----------------------------------------------------------

  predicate WithinCeilings(l: Ledger) {
    forall k :: k in l.budgets ==> l.budgets[k].Used() <= l.budgets[k].ceiling
  }

  /** The budgets one call draws on, given the ledger it meets. */
  function Touched(l: Ledger, op: Op): set<BudgetKey> {
    match op
    case SetCeiling(k, _) => {k}
    case Reserve(r, _, _, campaign) => KeysOf(r, campaign)
    case Settle(r, _) => if r in l.reservations then KeysOf(r, l.reservations[r].campaign) else {}
    case Release(r) => if r in l.reservations then KeysOf(r, l.reservations[r].campaign) else {}
  }

  predicate AllFit(budgets: map<BudgetKey, Budget>, keys: set<BudgetKey>, amount: int) {
    forall k :: k in keys ==> Fits(budgets, k, amount)
  }

  /**
   * Exactly the calls that keep every budget within its ceiling.  A reserve is
   * always such a call; the others are when the caller's own figures are.
   */
  predicate Disciplined(l: Ledger, op: Op) {
    match op
    case SetCeiling(k, ceiling) => (if k in l.budgets then l.budgets[k].reserved + l.budgets[k].settled else 0) <= ceiling
    case Reserve(_, _, _, _) => true
    case Settle(r, actual) =>
      r in l.reservations && l.reservations[r].status.Reserved? ==>
        AllFit(l.budgets, Touched(l, op), actual - l.reservations[r].amount)
    case Release(r) =>
      r in l.reservations && l.reservations[r].status.Reserved? ==>
        AllFit(l.budgets, Touched(l, op), -l.reservations[r].amount)
  }

  /** A fresh reserve leaves each budget it draws on within its ceiling, whatever state it met. */
  lemma ReserveStaysWithinCeiling(l: Ledger, op: Op)
    requires op.Reserve? && op.r !in l.reservations && Apply(l, op).1.Row?
    ensures forall k :: k in KeysOf(op.r, op.campaign) ==>
              k in Apply(l, op).0.budgets && Apply(l, op).0.budgets[k].Used() <= Apply(l, op).0.budgets[k].ceiling
  {
  }

  /** From within-ceiling ledgers, a call ends within the ceilings if and only if it is disciplined. */
  lemma CeilingsKeptExactly(l: Ledger, op: Op)
    requires Conserved(l) && WithinCeilings(l)
    ensures WithinCeilings(Apply(l, op).0) <==> Disciplined(l, op)
  {
    match op {
      case SetCeiling(k, ceiling) =>
        hide Conserved, Fits;
        SetCeilingMeans(l, k, ceiling);
        hide Apply;
        var l' := Apply(l, op).0;
        assert k in l'.budgets && forall x :: x in l'.budgets && x != k ==> x in l.budgets;
      case Reserve(_, _, _, _) => ReserveKeepsCeilings(l, op);
      case Settle(_, _) => SettleKeepsCeilings(l, op);
      case Release(_) => ReleaseKeepsCeilings(l, op);
    }
  }

  lemma ReserveKeepsCeilings(l: Ledger, op: Op)
    requires op.Reserve? && WithinCeilings(l)
    ensures WithinCeilings(Apply(l, op).0)
  {
  }

  lemma SettleKeepsCeilings(l: Ledger, op: Op)
    requires op.Settle? && Conserved(l) && WithinCeilings(l)
    ensures WithinCeilings(Apply(l, op).0) <==> Disciplined(l, op)
  {
    RowsHaveBudgets(l, op.r);
    hide Conserved;
    if op.r in l.reservations && l.reservations[op.r].status.Reserved? {
      var row := l.reservations[op.r];
      assert Touched(l, op) == KeysOf(op.r, row.campaign);
      MovedCeilings(l, Apply(l, op).0, Touched(l, op), -row.amount, op.actual, op.actual - row.amount);
      hide WithinCeilings, Apply, AllFit, Touched, KeysOf;
    }
  }

  lemma ReleaseKeepsCeilings(l: Ledger, op: Op)
    requires op.Release? && Conserved(l) && WithinCeilings(l)
    ensures WithinCeilings(Apply(l, op).0) <==> Disciplined(l, op)
  {
    hide *;
    RowsHaveBudgets(l, op.r);
    ReleasedBudgets(l, op);
    DisciplinedRelease(l, op);
    if op.r in l.reservations && l.reservations[op.r].status.Reserved? {
      var row := l.reservations[op.r];
      MovedCeilings(l, Apply(l, op).0, KeysOf(op.r, row.campaign), -row.amount, 0, -row.amount);
    }
  }

  lemma DisciplinedRelease(l: Ledger, op: Op)
    requires op.Release?
    ensures Disciplined(l, op) <==>
              (op.r in l.reservations && l.reservations[op.r].status.Reserved? ==>
                AllFit(l.budgets, KeysOf(op.r, l.reservations[op.r].campaign), -l.reservations[op.r].amount))
  {
    hide AllFit, KeysOf;
  }

  lemma ReleasedBudgets(l: Ledger, op: Op)
    requires op.Release?
    ensures if op.r in l.reservations && l.reservations[op.r].status.Reserved?
            then var row := l.reservations[op.r];
                 Apply(l, op).0.budgets == Adjust(l.budgets, KeysOf(op.r, row.campaign), -row.amount, 0)
            else Apply(l, op).0 == l
  {
    hide Adjust, KeysOf;
  }

  lemma RowsHaveBudgets(l: Ledger, r: ResKey)
    requires Conserved(l)
    ensures r in l.reservations ==> forall k :: k in KeysOf(r, l.reservations[r].campaign) ==> k in l.budgets
  {
  }

  lemma MovedCeilings(l: Ledger, l': Ledger, keys: set<BudgetKey>, reserved: int, settled: int, net: int)
    requires net == reserved + settled && WithinCeilings(l) && l'.budgets == Adjust(l.budgets, keys, reserved, settled)
    requires forall k :: k in keys ==> k in l.budgets
    ensures WithinCeilings(l') <==> AllFit(l.budgets, keys, net)
  {
    forall k | k in keys
      ensures l'.budgets[k].Used() <= l'.budgets[k].ceiling <==> Fits(l.budgets, k, net)
    {
      assert k in l'.budgets && l'.budgets[k] == Shift(l.budgets[k], reserved, settled);
    }
    assert forall k :: k in l'.budgets && k !in keys ==> l'.budgets[k] == l.budgets[k];
  }

  /** Calls whose figures a caller can vouch for without reading the budgets. */
  predicate Modest(l: Ledger, op: Op) {
    match op
    case SetCeiling(k, ceiling) => k in l.budgets ==> l.budgets[k].Used() <= ceiling
    case Reserve(_, _, amount, _) => amount >= 0
    case Settle(r, actual) => r in l.reservations ==> actual <= l.reservations[r].amount
    case Release(r) => true
  }

  predicate NonNegativeEstimates(l: Ledger) {
    forall r :: r in l.reservations ==> l.reservations[r].amount >= 0
  }

  /** Each call of the run is modest in the ledger it meets, and new ceilings are not negative. */
  predicate ModestRun(l: Ledger, ops: seq<Op>) {
    ops != [] ==>
      var before := ApplyAll(l, ops[..|ops| - 1]);
      var op := ops[|ops| - 1];
      ModestRun(l, ops[..|ops| - 1]) && Modest(before, op) && (op.SetCeiling? ==> op.ceiling >= 0)
  }

  lemma ModestIsDisciplined(l: Ledger, op: Op)
    requires Conserved(l) && WithinCeilings(l) && NonNegativeEstimates(l)
    requires Modest(l, op) && (op.SetCeiling? ==> op.ceiling >= 0)
    ensures Disciplined(l, op)
    ensures NonNegativeEstimates(Apply(l, op).0)
  {
  }

  /**
   * reserved + settled <= ceiling at every point of every run in which no
   * estimate is negative, no actual exceeds its estimate and no ceiling is
   * lowered below use.
   */
  lemma {:induction false} ModestRunsStayWithinCeilings(ops: seq<Op>)
    requires ModestRun(EMPTY, ops)
    ensures WithinCeilings(ApplyAll(EMPTY, ops)) && NonNegativeEstimates(ApplyAll(EMPTY, ops))
  {
    if ops != [] {
      var before := ops[..|ops| - 1];
      ModestRunsStayWithinCeilings(before);
      RunConserves(before);
      ModestIsDisciplined(ApplyAll(EMPTY, before), ops[|ops| - 1]);
      CeilingsKeptExactly(ApplyAll(EMPTY, before), ops[|ops| - 1]);
    }
  }

  /**
   * Why the estimates must not be negative: nothing in the serial ledger
   * refuses one, and releasing it after its room was taken pushes the account
   * past a ceiling that every reserve respected, for every ceiling and every
   * negative estimate.
   */
  lemma NegativeEstimateBreaksCeiling(t: string, ceiling: int, amount: int)
    requires ceiling >= 0 && amount < 0
    ensures var a := BudgetKey(t, Account, t);
            var l0 := Apply(EMPTY, SetCeiling(a, ceiling)).0;
            var l1 := Apply(l0, Reserve(ResKey(t, "a"), "sms", amount, None)).0;
            var l2 := Apply(l1, Reserve(ResKey(t, "b"), "sms", ceiling - amount, None)).0;
            var l3 := Apply(l2, Release(ResKey(t, "a"))).0;
            WithinCeilings(l2) && a in l3.budgets && l3.budgets[a] == Budget(ceiling, ceiling - amount, 0) && !WithinCeilings(l3)
  {
    var a := BudgetKey(t, Account, t);
    var ra, rb := ResKey(t, "a"), ResKey(t, "b");
    assert ra.id[0] != rb.id[0];
    var l0 := Apply(EMPTY, SetCeiling(a, ceiling)).0;
    assert l0.budgets == map[a := Budget(ceiling, 0, 0)];
    var l1 := Apply(l0, Reserve(ra, "sms", amount, None)).0;
    assert l1.budgets == map[a := Budget(ceiling, amount, 0)];
    var l2 := Apply(l1, Reserve(rb, "sms", ceiling - amount, None)).0;
    assert l2.budgets == map[a := Budget(ceiling, ceiling, 0)];
  }
}
