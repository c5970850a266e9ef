/**
 * The SQLite backend: one lock, so each call runs alone, and the statements of
 * a call run in order over the rows.  Every method refines `SpendModel.Apply`
 * exactly, refusal reasons included.
 */
module SqliteSpendLedger {
  import opened Prelude
  import opened SpendModel

  class SpendLedger {
    var budgets: map<BudgetKey, Budget>
    var reservations: map<ResKey, Reservation>

    ghost function State(): Ledger
      reads this
    {
      Ledger(budgets, reservations)
    }

    constructor ()
      ensures State() == EMPTY
    {
      budgets, reservations := map[], map[];
    }

    method SetCeiling(k: BudgetKey, micros: int)
      modifies this
      ensures State() == Apply(old(State()), Op.SetCeiling(k, micros)).0
      ensures budgets == old(budgets)[k := if k in old(budgets) then old(budgets)[k].(ceiling := micros) else Budget(micros, 0, 0)]
      ensures reservations == old(reservations)
    {
      if k in budgets {
        budgets := budgets[k := budgets[k].(ceiling := micros)];
      } else {
        budgets := budgets[k := Budget(micros, 0, 0)];
      }
    }

    method Reserve(r: ResKey, channel: string, amount: int, campaign: Option<string>) returns (reply: Reply)
      modifies this
      ensures (State(), reply) == Apply(old(State()), Op.Reserve(r, channel, amount, campaign))
    {
      if r in reservations {
        var prior := reservations[r];
        if prior.amount != amount {
          return Refusal(BoundToAnotherEstimate);
        }
        return Row(prior);
      }
      var keys := BudgetsOf(r, campaign);
      var i := 0;
      while i < |keys|
        invariant 0 <= i <= |keys|
        invariant forall j :: 0 <= j < i ==> Fits(budgets, keys[j], amount)
      {
        if keys[i] !in budgets {
          return Refusal(BudgetUnavailable(keys[i].kind));
        }
        var row := budgets[keys[i]];
        if amount > row.ceiling - row.reserved - row.settled {
          return Refusal(CeilingExhausted(keys[i].kind));
        }
        i := i + 1;
      }
      AdjustEach(keys, amount, 0);
      assert (set k | k in keys) == KeysOf(r, campaign);
      var row := Reservation(campaign, channel, amount, None, Reserved);
      reservations := reservations[r := row];
      return Row(row);
    }

    method Settle(r: ResKey, actual: int) returns (reply: Reply)
      modifies this
      ensures (State(), reply) == Apply(old(State()), Op.Settle(r, actual))
    {
      if r !in reservations {
        return Refusal(ReservationNotFound);
      }
      var row := reservations[r];
      if row.status == Settled {
        return Row(row);
      }
      if row.status != Reserved {
        return Refusal(ReleasedCannotSettle);
      }
      AdjustEach(BudgetsOf(r, row.campaign), -row.amount, actual);
      assert (set k | k in BudgetsOf(r, row.campaign)) == KeysOf(r, row.campaign);
      var settled := row.(actual := Some(actual), status := Settled);
      reservations := reservations[r := settled];
      return Row(settled);
    }

    method Release(r: ResKey) returns (reply: Reply)
      modifies this
      ensures (State(), reply) == Apply(old(State()), Op.Release(r))
    {
      if r !in reservations || reservations[r].status != Reserved {
        return Flag(false);
      }
      var row := reservations[r];
      AdjustEach(BudgetsOf(r, row.campaign), -row.amount, 0);
      assert (set k | k in BudgetsOf(r, row.campaign)) == KeysOf(r, row.campaign);
      reservations := reservations[r := row.(status := Released)];
      return Flag(true);
    }

    /** One `update spend_budgets` per key, in order; a key with no row updates nothing. */
    method AdjustEach(keys: seq<BudgetKey>, reserved: int, settled: int)
      requires forall i, j :: 0 <= i < j < |keys| ==> keys[i] != keys[j]
      modifies this`budgets
      ensures budgets == Adjust(old(budgets), (set k | k in keys), reserved, settled)
    {
      var i := 0;
      while i < |keys|
        invariant 0 <= i <= |keys|
        invariant budgets == Adjust(old(budgets), (set k | k in keys[..i]), reserved, settled)
      {
        assert keys[..i + 1] == keys[..i] + [keys[i]];
        if keys[i] in budgets {
          budgets := budgets[keys[i] := Shift(budgets[keys[i]], reserved, settled)];
        }
        i := i + 1;
      }
      assert keys[..i] == keys;
    }
  }
}
