/**
 * Finance records and the period report shared by both storage variants:
 * keep the records that fall in a daily, weekly, monthly or yearly window
 * around a reference day, then add up their amounts per transaction type.
 */
module Finance {
  import opened Wrappers
  import opened Dates
  import opened Periods

  /** The transaction type; a stored type outside the three is kept by name and counted nowhere. */
  datatype TxKind = Income | Expense | Savings | Unlisted(name: string)

  /** A finance record; `date` is the record's calendar day. */
  datatype FinanceRecord = FinanceRecord(
    id: string,
    kind: TxKind,
    amount: int,
    category: string,
    date: Day,
    description: Option<string>,
    timestamp: int)

  /** What a caller supplies to save a record: everything except its id and timestamp. */
  datatype Draft = Draft(kind: TxKind, amount: int, category: string, date: Day, description: Option<string>)

  /** The caller-supplied part of a record. */
  function Unstamped(r: FinanceRecord): Draft
  {
    Draft(r.kind, r.amount, r.category, r.date, r.description)
  }

  /** `{ ...record, id, timestamp }`: the draft completed with an id and a timestamp. */
  function Stamp(d: Draft, id: string, now: int): (r: FinanceRecord)
    ensures r.id == id && r.timestamp == now && Unstamped(r) == d
  {
    FinanceRecord(id, d.kind, d.amount, d.category, d.date, d.description, now)
  }

  /** The per-type totals of a report. */
  datatype Stats = Stats(income: int, expense: int, savings: int)

  /** One step of the `reduce`: the record's amount goes to the total of its type. */
  function Add(acc: Stats, r: FinanceRecord): Stats
  {
    match r.kind
    case Income => acc.(income := acc.income + r.amount)
    case Expense => acc.(expense := acc.expense + r.amount)
    case Savings => acc.(savings := acc.savings + r.amount)
    case Unlisted(_) => acc
  }

  /** The `reduce` from `{ income: 0, expense: 0, savings: 0 }`, first record first. */
  function Tally(rs: seq<FinanceRecord>): Stats
  {
    if rs == [] then Stats(0, 0, 0) else Add(Tally(rs[..|rs| - 1]), rs[|rs| - 1])
  }

  /** Reference definition: the sum of the amounts of the records of type `k`. */
  function KindTotal(rs: seq<FinanceRecord>, k: TxKind): int
  {
    if rs == [] then 0 else (if rs[0].kind == k then rs[0].amount else 0) + KindTotal(rs[1..], k)
  }

  lemma {:induction false} KindTotalAppend(a: seq<FinanceRecord>, b: seq<FinanceRecord>, k: TxKind)
    ensures KindTotal(a + b, k) == KindTotal(a, k) + KindTotal(b, k)
  {
    if a == [] {
      assert a + b == b;
    } else {
      assert (a + b)[1..] == a[1..] + b;
      KindTotalAppend(a[1..], b, k);
    }
  }

  /** Each field of the fold is the total of its type; unlisted types count nowhere. */
  lemma {:induction false} TallyIsKindTotals(rs: seq<FinanceRecord>)
    ensures Tally(rs) == Stats(KindTotal(rs, Income), KindTotal(rs, Expense), KindTotal(rs, Savings))
  {
    if rs != [] {
      var init, last := rs[..|rs| - 1], rs[|rs| - 1];
      TallyIsKindTotals(init);
      assert rs == init + [last];
      KindTotalAppend(init, [last], Income);
      KindTotalAppend(init, [last], Expense);
      KindTotalAppend(init, [last], Savings);
    }
  }

  /** The first element of `a` occurs in its permutation `b`; removing it leaves permutations. */
  lemma PermutationSplit(a: seq<FinanceRecord>, b: seq<FinanceRecord>) returns (i: nat)
    requires multiset(a) == multiset(b) && a != []
    ensures i < |b| && b[i] == a[0] && b == b[..i] + [b[i]] + b[i + 1..]
    ensures multiset(a[1..]) == multiset(b[..i] + b[i + 1..])
  {
    assert a[0] in multiset(b);
    i :| 0 <= i < |b| && b[i] == a[0];
    var pre, post := b[..i], b[i + 1..];
    assert b == pre + [b[i]] + post;
    assert a == [a[0]] + a[1..];
    calc {
      multiset(a[1..]);
      multiset(a) - multiset{a[0]};
      multiset(b) - multiset{b[i]};
      multiset(pre) + multiset(post);
      multiset(pre + post);
    }
  }

  /** The totals do not depend on the order of the records. */
  lemma {:induction false} KindTotalPermutation(a: seq<FinanceRecord>, b: seq<FinanceRecord>, k: TxKind)
    requires multiset(a) == multiset(b)
    ensures KindTotal(a, k) == KindTotal(b, k)
    decreases |a|
  {
    if a == [] {
      assert |b| == |multiset(b)| == 0;
    } else {
      var i := PermutationSplit(a, b);
      KindTotalPermutation(a[1..], b[..i] + b[i + 1..], k);
      KindTotalAppend(b[..i], [b[i]] + b[i + 1..], k);
      KindTotalAppend([b[i]], b[i + 1..], k);
      KindTotalAppend(b[..i], b[i + 1..], k);
      assert b[..i] + [b[i]] + b[i + 1..] == b[..i] + ([b[i]] + b[i + 1..]);
    }
  }

  /** The records `keep` accepts, in their original order. */
  function FilterBy(rs: seq<FinanceRecord>, keep: FinanceRecord -> bool): seq<FinanceRecord>
  {
    if rs == [] then [] else (if keep(rs[0]) then [rs[0]] else []) + FilterBy(rs[1..], keep)
  }

  /** Whether a record's day lies in the period window around the reference day. */
  function InWindow(period: Period, ref: Day): FinanceRecord -> bool
  {
    (r: FinanceRecord) => InPeriod(period, r.date, ref)
  }

  /** The `filter`: the records in the window, in their original order. */
  function Filter(rs: seq<FinanceRecord>, period: Period, ref: Day): seq<FinanceRecord>
  {
    FilterBy(rs, InWindow(period, ref))
  }

  lemma {:induction false} FilterByMembers(rs: seq<FinanceRecord>, keep: FinanceRecord -> bool)
    ensures forall r :: r in FilterBy(rs, keep) <==> r in rs && keep(r)
    ensures |FilterBy(rs, keep)| <= |rs|
  {
    if rs != [] {
      FilterByMembers(rs[1..], keep);
      assert rs == [rs[0]] + rs[1..];
    }
  }

  /** The filter keeps exactly the records in the window. */
  lemma FilterMembers(rs: seq<FinanceRecord>, period: Period, ref: Day)
    ensures forall r :: r in Filter(rs, period, ref) <==> r in rs && InPeriod(period, r.date, ref)
    ensures |Filter(rs, period, ref)| <= |rs|
  {
    FilterByMembers(rs, InWindow(period, ref));
  }

  lemma {:induction false} FilterByAppend(a: seq<FinanceRecord>, b: seq<FinanceRecord>, keep: FinanceRecord -> bool)
    ensures FilterBy(a + b, keep) == FilterBy(a, keep) + FilterBy(b, keep)
  {
    if a == [] {
      assert a + b == b;
    } else {
      var head := if keep(a[0]) then [a[0]] else [];
      assert (a + b)[0] == a[0];
      assert (a + b)[1..] == a[1..] + b;
      FilterByAppend(a[1..], b, keep);
      assert FilterBy(a + b, keep) == head + (FilterBy(a[1..], keep) + FilterBy(b, keep));
    }
  }

  /** The filter works piecewise, so the kept records stay in their order. */
  lemma FilterAppend(a: seq<FinanceRecord>, b: seq<FinanceRecord>, period: Period, ref: Day)
    ensures Filter(a + b, period, ref) == Filter(a, period, ref) + Filter(b, period, ref)
  {
    FilterByAppend(a, b, InWindow(period, ref));
  }

  lemma {:induction false} FilterByCount(rs: seq<FinanceRecord>, keep: FinanceRecord -> bool, r: FinanceRecord)
    ensures multiset(FilterBy(rs, keep))[r] == if keep(r) then multiset(rs)[r] else 0
  {
    if rs != [] {
      FilterByCount(rs[1..], keep, r);
      assert rs == [rs[0]] + rs[1..];
    }
  }

  /** The filter keeps every copy of a record in the window and no copy of one outside it. */
  lemma FilterCount(rs: seq<FinanceRecord>, period: Period, ref: Day, r: FinanceRecord)
    ensures multiset(Filter(rs, period, ref))[r] == if InPeriod(period, r.date, ref) then multiset(rs)[r] else 0
  {
    FilterByCount(rs, InWindow(period, ref), r);
  }

  /** Filtering permuted records keeps a permutation of the same records. */
  lemma FilterPermutation(a: seq<FinanceRecord>, b: seq<FinanceRecord>, period: Period, ref: Day)
    requires multiset(a) == multiset(b)
    ensures multiset(Filter(a, period, ref)) == multiset(Filter(b, period, ref))
  {
    forall r ensures multiset(Filter(a, period, ref))[r] == multiset(Filter(b, period, ref))[r] {
      FilterCount(a, period, ref, r);
      FilterCount(b, period, ref, r);
    }
  }

  /** `getFinanceStats` on a list of records: the per-type totals of the records in the window. */
  function PeriodStats(rs: seq<FinanceRecord>, period: Period, ref: Day): Stats
  {
    Tally(Filter(rs, period, ref))
  }

  /** Each report field is the sum of the amounts of the kept records of that type. */
  lemma PeriodStatsFields(rs: seq<FinanceRecord>, period: Period, ref: Day)
    ensures var s := PeriodStats(rs, period, ref); var kept := Filter(rs, period, ref);
      s.income == KindTotal(kept, Income) && s.expense == KindTotal(kept, Expense) && s.savings == KindTotal(kept, Savings)
  {
    TallyIsKindTotals(Filter(rs, period, ref));
  }

  /** The report does not depend on the order of the stored records. */
  lemma PeriodStatsOrderIndependent(a: seq<FinanceRecord>, b: seq<FinanceRecord>, period: Period, ref: Day)
    requires multiset(a) == multiset(b)
    ensures PeriodStats(a, period, ref) == PeriodStats(b, period, ref)
  {
    var fa, fb := Filter(a, period, ref), Filter(b, period, ref);
    FilterPermutation(a, b, period, ref);
    TallyIsKindTotals(fa);
    TallyIsKindTotals(fb);
    KindTotalPermutation(fa, fb, Income);
    KindTotalPermutation(fa, fb, Expense);
    KindTotalPermutation(fa, fb, Savings);
  }

  /** A record added at the end counts once in the report when it is in the window, and not at all otherwise. */
  lemma StatsAfterAppend(rs: seq<FinanceRecord>, r: FinanceRecord, period: Period, ref: Day)
    ensures PeriodStats(rs + [r], period, ref) ==
      if InPeriod(period, r.date, ref) then Add(PeriodStats(rs, period, ref), r) else PeriodStats(rs, period, ref)
  {
    FilterAppend(rs, [r], period, ref);
    var kept := Filter(rs, period, ref);
    var keep := InWindow(period, ref);
    assert [r][1..] == [] && keep(r) == InPeriod(period, r.date, ref);
    assert FilterBy([r], keep) == (if keep(r) then [r] else []) + FilterBy([], keep);
    assert Filter([r], period, ref) == if InPeriod(period, r.date, ref) then [r] else [];
    assert (kept + [r])[..|kept|] == kept;
    assert kept + [] == kept;
  }

  /** A window with no records, and so any unrecognised period, reports zero for every type. */
  lemma EmptyWindowIsZero(rs: seq<FinanceRecord>, period: Period, ref: Day)
    requires period.Other? || forall r :: r in rs ==> !InPeriod(period, r.date, ref)
    ensures Filter(rs, period, ref) == []
    ensures PeriodStats(rs, period, ref) == Stats(0, 0, 0)
  {
    FilterByNone(rs, InWindow(period, ref));
  }

  lemma {:induction false} FilterByNone(rs: seq<FinanceRecord>, keep: FinanceRecord -> bool)
    requires forall r :: r in rs ==> !keep(r)
    ensures FilterBy(rs, keep) == []
  {
    if rs != [] {
      assert rs[0] in rs;
      FilterByNone(rs[1..], keep);
    }
  }
}
