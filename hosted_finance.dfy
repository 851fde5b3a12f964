/**
 * The hosted variant of the finance records: one table of rows for all users.
 * Reading selects the user's rows latest date first and fills in a missing
 * timestamp; saving inserts one row; the report returns the per-type totals
 * together with the records they were taken from.
 */
module HostedFinance {
  import opened Wrappers
  import opened Js
  import opened Dates
  import opened Periods
  import opened Finance
  import opened Session

  /**
   * A row of the `finance_records` table. `timestamp` may be absent or zero;
   * `createdAt` is the time the backend stamps on insert, read through
   * `new Date(created_at).getTime()`, absent when the column is empty.
   */
  datatype HostedRow = HostedRow(
    id: string,
    userId: UserId,
    kind: TxKind,
    amount: int,
    category: string,
    date: Day,
    description: Option<string>,
    timestamp: Option<int>,
    createdAt: Option<int>)

  /** Why `saveFinanceRecord` throws. */
  datatype SaveError = NotAuthenticated | InsertFailed

  /** What `getFinanceStats` returns: the totals and the records in the window. */
  datatype Report = Report(stats: Stats, records: seq<FinanceRecord>)

  /**
   * The `map` of `getFinanceRecords` on one row: the stored timestamp when it
   * is truthy, else the creation time, else the current time `now`.
   */
  function ToRecord(row: HostedRow, now: int): (r: FinanceRecord)
    ensures r.id == row.id && Unstamped(r) == Draft(row.kind, row.amount, row.category, row.date, row.description)
    ensures TruthyNumber(row.timestamp) ==> r.timestamp == row.timestamp.value
    ensures !TruthyNumber(row.timestamp) && row.createdAt.Some? ==> r.timestamp == row.createdAt.value
    ensures !TruthyNumber(row.timestamp) && row.createdAt.None? ==> r.timestamp == now
  {
    var ts :=
      if TruthyNumber(row.timestamp) then row.timestamp.value
      else if row.createdAt.Some? then row.createdAt.value
      else now;
    FinanceRecord(row.id, row.kind, row.amount, row.category, row.date, row.description, ts)
  }

  /** The `map` over all fetched rows, in their order. */
  function ToRecords(rows: seq<HostedRow>, now: int): (rs: seq<FinanceRecord>)
    ensures |rs| == |rows| && forall i :: 0 <= i < |rows| ==> rs[i] == ToRecord(rows[i], now)
  {
    seq(|rows|, i requires 0 <= i < |rows| => ToRecord(rows[i], now))
  }

  lemma ToRecordsAppend(a: seq<HostedRow>, b: seq<HostedRow>, now: int)
    ensures ToRecords(a + b, now) == ToRecords(a, now) + ToRecords(b, now)
  {
  }

  /** `.eq('user_id', userId)`: the user's rows, in table order. */
  function OwnRows(rows: seq<HostedRow>, userId: UserId): seq<HostedRow>
  {
    if rows == [] then []
    else OwnRows(rows[..|rows| - 1], userId) + (if rows[|rows| - 1].userId == userId then [rows[|rows| - 1]] else [])
  }

  /** The selection keeps exactly the rows of the user. */
  lemma {:induction false} OwnRowsMembers(rows: seq<HostedRow>, userId: UserId)
    ensures forall row :: row in OwnRows(rows, userId) <==> row in rows && row.userId == userId
  {
    if rows != [] {
      OwnRowsMembers(rows[..|rows| - 1], userId);
      assert rows == rows[..|rows| - 1] + [rows[|rows| - 1]];
    }
  }

  /** Records ordered by date, latest first. */
  predicate DatesDescending(rs: seq<FinanceRecord>)
  {
    forall i, j :: 0 <= i < j < |rs| ==> rs[i].date >= rs[j].date
  }

  /** A record no earlier than any of a latest-first list can go in front of it. */
  lemma ConsDescending(x: FinanceRecord, rest: seq<FinanceRecord>)
    requires DatesDescending(rest)
    requires forall y :: y in rest ==> y.date <= x.date
    ensures DatesDescending([x] + rest)
  {
    var s := [x] + rest;
    forall i, j | 0 <= i < j < |s| ensures s[i].date >= s[j].date {
      assert s[j] == rest[j - 1];
      if i == 0 { assert rest[j - 1] in rest; } else { assert s[i] == rest[i - 1]; }
    }
  }

  /** In a latest-first list the first record is no earlier than any other. */
  lemma FirstIsLatest(sorted: seq<FinanceRecord>)
    requires DatesDescending(sorted) && sorted != []
    ensures forall y :: y in sorted ==> y.date <= sorted[0].date
  {
    forall y | y in sorted ensures y.date <= sorted[0].date {
      var k :| 0 <= k < |sorted| && sorted[k] == y;
    }
  }

  /** Places a record into a latest-first list, ahead of the records not later than it. */
  function InsertByDate(r: FinanceRecord, sorted: seq<FinanceRecord>): (s: seq<FinanceRecord>)
    requires DatesDescending(sorted)
    ensures DatesDescending(s) && multiset(s) == multiset(sorted) + multiset{r}
  {
    if sorted == [] || sorted[0].date <= r.date then
      FirstIsLatestOrEmpty(sorted, r);
      ConsDescending(r, sorted);
      [r] + sorted
    else
      var tail := sorted[1..];
      assert sorted == [sorted[0]] + tail;
      var rest := InsertByDate(r, tail);
      FirstIsLatest(sorted);
      assert forall x :: x in rest ==> x.date <= sorted[0].date by {
        forall x | x in rest ensures x.date <= sorted[0].date {
          assert x in multiset(rest);
          assert x == r || x in multiset(tail);
        }
      }
      ConsDescending(sorted[0], rest);
      [sorted[0]] + rest
  }

  /** A record no earlier than the first of a latest-first list is no earlier than any of it. */
  lemma FirstIsLatestOrEmpty(sorted: seq<FinanceRecord>, r: FinanceRecord)
    requires DatesDescending(sorted)
    requires sorted == [] || sorted[0].date <= r.date
    ensures forall y :: y in sorted ==> y.date <= r.date
  {
    if sorted != [] {
      FirstIsLatest(sorted);
    }
  }

  /** `.order('date', { ascending: false })`: the same records, latest date first. */
  function SortByDateDesc(rs: seq<FinanceRecord>): (s: seq<FinanceRecord>)
    ensures DatesDescending(s) && multiset(s) == multiset(rs)
  {
    if rs == [] then []
    else
      assert rs == [rs[0]] + rs[1..];
      InsertByDate(rs[0], SortByDateDesc(rs[1..]))
  }

  /** What a successful read returns: the user's records, latest date first, timestamps filled in. */
  function Fetched(rows: seq<HostedRow>, userId: UserId, now: int): seq<FinanceRecord>
  {
    SortByDateDesc(ToRecords(OwnRows(rows, userId), now))
  }

  /** The row `saveFinanceRecord` inserts: the draft for the user, stamped with its creation time but no timestamp. */
  function NewRow(userId: UserId, draft: Draft, id: string, createdAt: int): HostedRow
  {
    HostedRow(id, userId, draft.kind, draft.amount, draft.category, draft.date, draft.description, None, Some(createdAt))
  }

  /** A saved record is read back with its creation time as its timestamp. */
  lemma NewRowReadsBack(userId: UserId, draft: Draft, id: string, createdAt: int, now: int)
    ensures ToRecord(NewRow(userId, draft, id, createdAt), now) == Stamp(draft, id, createdAt)
  {
  }

  /** After a save the user's next read holds the same records as before plus the saved one. */
  lemma SaveAddsOneRecord(rows: seq<HostedRow>, userId: UserId, draft: Draft, id: string, createdAt: int, now: int)
    ensures multiset(Fetched(rows + [NewRow(userId, draft, id, createdAt)], userId, now)) ==
      multiset(Fetched(rows, userId, now)) + multiset{Stamp(draft, id, createdAt)}
  {
    var row := NewRow(userId, draft, id, createdAt);
    var all := rows + [row];
    assert all[..|all| - 1] == rows;
    assert OwnRows(all, userId) == OwnRows(rows, userId) + [row];
    ToRecordsAppend(OwnRows(rows, userId), [row], now);
    NewRowReadsBack(userId, draft, id, createdAt, now);
  }

  /** A save for one user leaves every other user's reads as they were. */
  lemma SaveLeavesOthers(rows: seq<HostedRow>, userId: UserId, draft: Draft, id: string, createdAt: int, other: UserId, now: int)
    requires other != userId
    ensures Fetched(rows + [NewRow(userId, draft, id, createdAt)], other, now) == Fetched(rows, other, now)
  {
    var all := rows + [NewRow(userId, draft, id, createdAt)];
    assert all[..|all| - 1] == rows;
    assert OwnRows(all, other) == OwnRows(rows, other) + [];
    assert OwnRows(rows, other) + [] == OwnRows(rows, other);
  }

  /** The kept records of a latest-first list are still latest first. */
  lemma {:induction false} FilterKeepsOrder(rs: seq<FinanceRecord>, period: Period, ref: Day)
    requires DatesDescending(rs)
    ensures DatesDescending(Filter(rs, period, ref))
  {
    if rs != [] {
      var tail := rs[1..];
      FilterKeepsOrder(tail, period, ref);
      FilterMembers(tail, period, ref);
      FirstIsLatest(rs);
      var rest := Filter(tail, period, ref);
      assert forall x :: x in rest ==> x in rs;
      ConsDescending(rs[0], rest);
      assert Filter(rs, period, ref) == [rs[0]] + rest || Filter(rs, period, ref) == rest;
    }
  }

  /** The `finance_records` table. */
  class HostedFinanceStore {
    var rows: seq<HostedRow>

    constructor ()
      ensures rows == []
    {
      rows := [];
    }

    /**
     * `getFinanceRecords`: nothing for an empty user id or a failed read;
     * otherwise all of the user's records (and only those), latest date
     * first, with the timestamp fallback applied.
     */
    function GetFinanceRecords(userId: UserId, backend: Backend, now: int): (rs: seq<FinanceRecord>)
      reads this
      ensures userId == "" || backend == FetchFails ==> rs == []
      ensures userId != "" && backend != FetchFails ==>
        DatesDescending(rs) && multiset(rs) == multiset(ToRecords(OwnRows(rows, userId), now))
    {
      if userId == "" || backend == FetchFails then [] else Fetched(rows, userId, now)
    }

    /**
     * `saveFinanceRecord`: an empty user id is refused as not authenticated, a
     * failed insert is reported, and otherwise one row for the user is added
     * and returned.
     */
    method SaveFinanceRecord(userId: UserId, draft: Draft, id: string, createdAt: int, backend: Backend)
      returns (r: Result<HostedRow, SaveError>)
      modifies this
      ensures userId == "" ==> r == Err(NotAuthenticated) && rows == old(rows)
      ensures userId != "" && backend != Healthy ==> r == Err(InsertFailed) && rows == old(rows)
      ensures userId != "" && backend == Healthy ==>
        r == Ok(NewRow(userId, draft, id, createdAt)) && rows == old(rows) + [r.value]
    {
      if userId == "" {
        return Err(NotAuthenticated);
      }
      if backend != Healthy {
        return Err(InsertFailed);
      }
      var row := NewRow(userId, draft, id, createdAt);
      rows := rows + [row];
      return Ok(row);
    }

    /**
     * `getFinanceStats`: the fetched records in the window, still latest date
     * first, and the per-type totals over exactly those records.
     */
    function GetFinanceStats(userId: UserId, period: Period, ref: Day, backend: Backend, now: int): (rep: Report)
      reads this
      ensures forall r :: r in rep.records <==> r in GetFinanceRecords(userId, backend, now) && InPeriod(period, r.date, ref)
      ensures forall r :: multiset(rep.records)[r] ==
                          if InPeriod(period, r.date, ref) then multiset(GetFinanceRecords(userId, backend, now))[r] else 0
      ensures rep.records == Filter(GetFinanceRecords(userId, backend, now), period, ref)
      ensures DatesDescending(rep.records)
      ensures rep.stats == Stats(KindTotal(rep.records, Income), KindTotal(rep.records, Expense), KindTotal(rep.records, Savings))
      ensures period.Other? ==> rep == Report(Stats(0, 0, 0), [])
    {
      var fetched := GetFinanceRecords(userId, backend, now);
      var kept := Filter(fetched, period, ref);
      FilterMembers(fetched, period, ref);
      FilterKeepsOrder(fetched, period, ref);
      forall r ensures multiset(kept)[r] == if InPeriod(period, r.date, ref) then multiset(fetched)[r] else 0 {
        FilterCount(fetched, period, ref, r);
      }
      TallyIsKindTotals(kept);
      if period.Other? then
        EmptyWindowIsZero(fetched, period, ref);
        Report(Tally(kept), kept)
      else
        Report(Tally(kept), kept)
    }
  }

  /**
   * Both variants report the same totals for the same records: the hosted
   * totals equal the totals the browser-storage report computes over the
   * user's records in the order they were saved.
   */
  lemma HostedStatsMatchLocal(store: HostedFinanceStore, userId: UserId, period: Period, ref: Day, now: int)
    requires userId != ""
    ensures store.GetFinanceStats(userId, period, ref, Healthy, now).stats ==
      PeriodStats(ToRecords(OwnRows(store.rows, userId), now), period, ref)
  {
    PeriodStatsOrderIndependent(store.GetFinanceRecords(userId, Healthy, now), ToRecords(OwnRows(store.rows, userId), now), period, ref);
  }
}
