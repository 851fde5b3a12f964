/**
 * The browser-storage variant of the finance records: one list of records per
 * user under the key `finance_records_<user id>`, appended to on every save.
 */
module LocalFinance {
  import opened Wrappers
  import opened Dates
  import opened Periods
  import opened Finance
  import opened Session

  /** The storage entries, one record list per user. */
  class LocalFinanceStore {
    var storage: map<UserId, seq<FinanceRecord>>

    constructor ()
      ensures storage == map[]
    {
      storage := map[];
    }

    /** `getFinanceRecords`: the user's stored list; none without a user or without an entry. */
    function GetFinanceRecords(user: Option<UserId>): (rs: seq<FinanceRecord>)
      reads this
      ensures user.None? ==> rs == []
      ensures user.Some? ==> rs == if user.value in storage then storage[user.value] else []
    {
      if user.Some? && user.value in storage then storage[user.value] else []
    }

    /**
     * `saveFinanceRecord`: without a user nothing is stored and nothing is
     * returned; otherwise the draft, given the fresh id and the current time,
     * goes at the end of the user's list and is returned.
     */
    method SaveFinanceRecord(user: Option<UserId>, draft: Draft, id: string, now: int) returns (r: Option<FinanceRecord>)
      modifies this
      ensures user.None? ==> r == None && storage == old(storage)
      ensures user.Some? ==>
        r == Some(Stamp(draft, id, now)) &&
        storage == old(storage)[user.value := old(GetFinanceRecords(user)) + [r.value]]
    {
      if user.None? {
        return None;
      }
      var records := GetFinanceRecords(user);
      var record := Stamp(draft, id, now);
      storage := storage[user.value := records + [record]];
      return Some(record);
    }

    /**
     * `getFinanceStats`: the per-type totals of the user's records in the
     * period window around the reference day.
     */
    function GetFinanceStats(user: Option<UserId>, period: Period, ref: Day): (s: Stats)
      reads this
      ensures var kept := Filter(GetFinanceRecords(user), period, ref);
        s == Stats(KindTotal(kept, Income), KindTotal(kept, Expense), KindTotal(kept, Savings))
      ensures user.None? || period.Other? ==> s == Stats(0, 0, 0)
    {
      var records := GetFinanceRecords(user);
      PeriodStatsFields(records, period, ref);
      if period.Other? then
        EmptyWindowIsZero(records, period, ref);
        PeriodStats(records, period, ref)
      else
        PeriodStats(records, period, ref)
    }
  }

  /**
   * Saving one record changes the report of any window by that record's
   * amount on its type's total when the record's day is in the window, and
   * leaves it unchanged otherwise.
   */
  lemma SaveThenStats(records: seq<FinanceRecord>, draft: Draft, id: string, now: int, period: Period, ref: Day)
    ensures var after := PeriodStats(records + [Stamp(draft, id, now)], period, ref);
      var before := PeriodStats(records, period, ref);
      var a := draft.amount;
      if !InPeriod(period, draft.date, ref) then after == before
      else match draft.kind
        case Income => after == before.(income := before.income + a)
        case Expense => after == before.(expense := before.expense + a)
        case Savings => after == before.(savings := before.savings + a)
        case Unlisted(_) => after == before
  {
    StatsAfterAppend(records, Stamp(draft, id, now), period, ref);
  }
}
