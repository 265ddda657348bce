/** The dashboard rollups of `services/data.js`: 30 daily buckets, 12 monthly
    buckets and the expense total of each category. In the daily and monthly
    buckets every record whose type is not `"income"` counts as expense. */
module Dashboard {
  import opened Calendar
  import opened Records
  import opened Sorting
  import opened Categories
  import opened Text

  const DAYS_SHOWN: int := 30
  const MONTHS_SHOWN: int := 12

  /** `monthNames[m]`: the three-letter English name of month `m`. */
  function MonthName(m: Month0): string
  {
    if m == 0 then "Jan" else if m == 1 then "Feb" else if m == 2 then "Mar"
    else if m == 3 then "Apr" else if m == 4 then "May" else if m == 5 then "Jun"
    else if m == 6 then "Jul" else if m == 7 then "Aug" else if m == 8 then "Sep"
    else if m == 9 then "Oct" else if m == 10 then "Nov" else "Dec"
  }

  /** The `{ income, expense }` object the rollups accumulate into. */
  datatype Totals = Totals(income: int, expense: int)

  /** One daily bucket; `date` is the UTC day number its `YYYY-MM-DD` label names. */
  datatype DayBucket = DayBucket(date: int, income: int, expense: int)

  /** One monthly bucket, labelled like `Jan '26`. */
  datatype MonthBucket = MonthBucket(month: string, income: int, expense: int)

  function BucketIncome(b: DayBucket): int { b.income }
  function BucketExpense(b: DayBucket): int { b.expense }

  // ---------------------------------------------------------------- daily

  /** `f` restricted to the records dated on UTC day `d`. */
  function OnDay(d: int, f: Tx -> int): Tx -> int
  {
    (t: Tx) => if DayOf(t.date) == d then f(t) else 0
  }

  /** `f` restricted to the records dated on a UTC day in `[lo, hi)`. */
  function InDays(lo: int, hi: int, f: Tx -> int): Tx -> int
  {
    (t: Tx) => if lo <= DayOf(t.date) < hi then f(t) else 0
  }

  function DayIncome(txs: seq<Tx>, d: int): int { Sum(txs, OnDay(d, IncomeAmount)) }
  function DayExpense(txs: seq<Tx>, d: int): int { Sum(txs, OnDay(d, NotIncomeAmount)) }

  /** What `calculateDailyStats` returns: a bucket for each of the 30 days
      ending with `today`, oldest first. */
  function DailyStats(txs: seq<Tx>, today: int): (r: seq<DayBucket>)
    ensures |r| == DAYS_SHOWN
  {
    seq(DAYS_SHOWN, k requires 0 <= k < DAYS_SHOWN => DayBucketOf(txs, today - (DAYS_SHOWN - 1) + k))
  }

  lemma DailyStatsAt(txs: seq<Tx>, today: int, k: int)
    requires 0 <= k < DAYS_SHOWN
    ensures DailyStats(txs, today)[k] == DayBucketOf(txs, today - (DAYS_SHOWN - 1) + k)
  {
  }

  /** The buckets are the 30 consecutive days ending with `today`. */
  lemma DailyDates(txs: seq<Tx>, today: int)
    ensures DailyStats(txs, today)[0].date == today - (DAYS_SHOWN - 1)
    ensures DailyStats(txs, today)[DAYS_SHOWN - 1].date == today
    ensures forall k :: 0 < k < DAYS_SHOWN ==>
              DailyStats(txs, today)[k].date == DailyStats(txs, today)[k - 1].date + 1
  {
    DailyStatsAt(txs, today, 0);
    DailyStatsAt(txs, today, DAYS_SHOWN - 1);
    forall k | 0 < k < DAYS_SHOWN
      ensures DailyStats(txs, today)[k].date == DailyStats(txs, today)[k - 1].date + 1
    {
      DailyStatsAt(txs, today, k);
      DailyStatsAt(txs, today, k - 1);
    }
  }

  /** The bucket of UTC day `d`. */
  function DayBucketOf(txs: seq<Tx>, d: int): DayBucket
  {
    DayBucket(d, DayIncome(txs, d), DayExpense(txs, d))
  }

  /** `map.get(key) || { income: 0, expense: 0 }`. */
  function Lookup<K>(m: map<K, Totals>, key: K): Totals
  {
    if key in m then m[key] else Totals(0, 0)
  }

  /** The bucket update of one record: income for `"income"`, expense for any other type. */
  function AddRecord(t: Totals, tx: Tx): Totals
  {
    if tx.kind == INCOME then t.(income := t.income + tx.amount) else t.(expense := t.expense + tx.amount)
  }

  /** The two totals of UTC day `d`. */
  function DayTotals(txs: seq<Tx>, d: int): Totals
  {
    Totals(DayIncome(txs, d), DayExpense(txs, d))
  }

  /** Adding record `i` under its day keeps every day's entry equal to the
      totals of the records seen so far. */
  lemma DayMapStep(txs: seq<Tx>, i: int, m: map<int, Totals>, m': map<int, Totals>)
    requires 0 <= i < |txs|
    requires forall d :: Lookup(m, d) == DayTotals(txs[..i], d)
    requires m' == m[DayOf(txs[i].date) := AddRecord(Lookup(m, DayOf(txs[i].date)), txs[i])]
    ensures forall d :: Lookup(m', d) == DayTotals(txs[..i + 1], d)
  {
    var tx := txs[i];
    forall d ensures Lookup(m', d) == DayTotals(txs[..i + 1], d) {
      SumStep(txs, i, OnDay(d, IncomeAmount));
      SumStep(txs, i, OnDay(d, NotIncomeAmount));
      if d == DayOf(tx.date) {
        assert OnDay(d, IncomeAmount)(tx) == IncomeAmount(tx);
        assert OnDay(d, NotIncomeAmount)(tx) == NotIncomeAmount(tx);
      } else {
        assert OnDay(d, IncomeAmount)(tx) == 0 && OnDay(d, NotIncomeAmount)(tx) == 0;
        assert Lookup(m', d) == Lookup(m, d);
      }
    }
  }

  /** The `forEach` callback of `calculateDailyStats`: the record's amount goes
      into its day's entry, which starts at zero when the day is new. */
  method AddToDay(dailyMap: map<int, Totals>, tx: Tx) returns (m: map<int, Totals>)
    ensures m == dailyMap[DayOf(tx.date) := AddRecord(Lookup(dailyMap, DayOf(tx.date)), tx)]
  {
    m := dailyMap;
    var dateStr := DayOf(tx.date);
    if dateStr !in m {
      m := m[dateStr := Totals(0, 0)];
    }
    var day := m[dateStr];
    if tx.kind == INCOME {
      m := m[dateStr := day.(income := day.income + tx.amount)];
    } else {
      m := m[dateStr := day.(expense := day.expense + tx.amount)];
    }
  }

  /** `calculateDailyStats`, with the current day passed in as `today`. */
  method CalculateDailyStats(txs: seq<Tx>, today: int) returns (result: seq<DayBucket>)
    ensures result == DailyStats(txs, today)
  {
    var dailyMap: map<int, Totals> := map[];
    for i := 0 to |txs|
      invariant forall d :: Lookup(dailyMap, d) == DayTotals(txs[..i], d)
    {
      ghost var before := dailyMap;
      dailyMap := AddToDay(dailyMap, txs[i]);
      DayMapStep(txs, i, before, dailyMap);
    }
    assert txs[..|txs|] == txs;
    result := [];
    var i := DAYS_SHOWN - 1;
    while i >= 0
      invariant -1 <= i < DAYS_SHOWN
      invariant |result| == DAYS_SHOWN - 1 - i
      invariant forall k :: 0 <= k < |result| ==> result[k] == DailyStats(txs, today)[k]
    {
      var dateStr := today - i;
      var data := Lookup(dailyMap, dateStr);
      DailyStatsAt(txs, today, |result|);
      result := result + [DayBucket(dateStr, data.income, data.expense)];
      i := i - 1;
    }
  }

  /** A day without records has the bucket `{ income: 0, expense: 0 }`. */
  lemma {:induction false} DayZeroFill(txs: seq<Tx>, d: int)
    requires forall i :: 0 <= i < |txs| ==> DayOf(txs[i].date) != d
    ensures DayIncome(txs, d) == 0 && DayExpense(txs, d) == 0
  {
    SumZero(txs, OnDay(d, IncomeAmount));
    SumZero(txs, OnDay(d, NotIncomeAmount));
  }

  /** Records dated outside the 30-day window do not change any bucket. */
  lemma OutsideDaysIgnored(txs: seq<Tx>, extra: seq<Tx>, today: int)
    requires forall i :: 0 <= i < |extra| ==>
               !(today - (DAYS_SHOWN - 1) <= DayOf(extra[i].date) <= today)
    ensures DailyStats(txs + extra, today) == DailyStats(txs, today)
  {
    forall k | 0 <= k < DAYS_SHOWN
      ensures DailyStats(txs + extra, today)[k] == DailyStats(txs, today)[k]
    {
      var d := today - (DAYS_SHOWN - 1) + k;
      DayZeroFill(extra, d);
      SumAppend(txs, extra, OnDay(d, IncomeAmount));
      SumAppend(txs, extra, OnDay(d, NotIncomeAmount));
      DailyStatsAt(txs + extra, today, k);
      DailyStatsAt(txs, today, k);
    }
  }

  /** With no records every bucket is zero. */
  lemma EmptyDays(today: int)
    ensures forall k :: 0 <= k < DAYS_SHOWN ==>
              DailyStats([], today)[k].income == 0 && DailyStats([], today)[k].expense == 0
  {
    forall k | 0 <= k < DAYS_SHOWN
      ensures DailyStats([], today)[k].income == 0 && DailyStats([], today)[k].expense == 0
    {
      DailyStatsAt([], today, k);
    }
  }

  /** Summing the first `n` buckets of a field counts each record dated on one
      of their days once. */
  lemma {:induction false} WindowPrefixSum(txs: seq<Tx>, r: seq<DayBucket>, lo: int, n: nat,
                                           field: DayBucket -> int, g: Tx -> int)
    requires n <= |r|
    requires forall k :: 0 <= k < |r| ==> field(r[k]) == Sum(txs, OnDay(lo + k, g))
    ensures Sum(r[..n], field) == Sum(txs, InDays(lo, lo + n, g))
    decreases n
  {
    if n == 0 {
      SumZero(txs, InDays(lo, lo, g));
    } else {
      WindowPrefixSum(txs, r, lo, n - 1, field, g);
      SumStep(r, n - 1, field);
      SumAdd(txs, InDays(lo, lo + n - 1, g), OnDay(lo + n - 1, g), InDays(lo, lo + n, g));
    }
  }

  /** Conservation: the buckets' incomes add up to the income records dated in
      the window, and their expenses to the other records dated in the window. */
  lemma DailyConservation(txs: seq<Tx>, today: int)
    ensures Sum(DailyStats(txs, today), BucketIncome)
         == Sum(txs, InDays(today - (DAYS_SHOWN - 1), today + 1, IncomeAmount))
    ensures Sum(DailyStats(txs, today), BucketExpense)
         == Sum(txs, InDays(today - (DAYS_SHOWN - 1), today + 1, NotIncomeAmount))
  {
    var r, lo := DailyStats(txs, today), today - (DAYS_SHOWN - 1);
    assert r[..DAYS_SHOWN] == r;
    forall k | 0 <= k < DAYS_SHOWN
      ensures r[k] == DayBucketOf(txs, lo + k)
    {
      DailyStatsAt(txs, today, k);
    }
    WindowPrefixSum(txs, r, lo, DAYS_SHOWN, BucketIncome, IncomeAmount);
    WindowPrefixSum(txs, r, lo, DAYS_SHOWN, BucketExpense, NotIncomeAmount);
  }

  // -------------------------------------------------------------- monthly

  /** `f` restricted to the records whose local calendar month is `ym`. */
  function InMonth(ym: YearMonth, f: Tx -> int): Tx -> int
  {
    (t: Tx) => if t.date.localMonth == ym then f(t) else 0
  }

  function MonthIncome(txs: seq<Tx>, ym: YearMonth): int { Sum(txs, InMonth(ym, IncomeAmount)) }
  function MonthExpense(txs: seq<Tx>, ym: YearMonth): int { Sum(txs, InMonth(ym, NotIncomeAmount)) }

  /** `${monthNames[m]} '${String(year).slice(-2)}`, with the year suffix in
      closed form (`MonthLabelIsTemplate` shows it is the same string). */
  function MonthLabel(ym: YearMonth): string
  {
    MonthName(ym.month) + " '" + YearSuffix(ym.year)
  }

  /** The month index a three-letter name stands for, or -1. */
  function MonthNameIndex(name: string): int
  {
    if name == "Jan" then 0 else if name == "Feb" then 1 else if name == "Mar" then 2
    else if name == "Apr" then 3 else if name == "May" then 4 else if name == "Jun" then 5
    else if name == "Jul" then 6 else if name == "Aug" then 7 else if name == "Sep" then 8
    else if name == "Oct" then 9 else if name == "Nov" then 10 else if name == "Dec" then 11
    else -1
  }

  /** Each month has its own three-letter name. */
  lemma MonthNamesInjective(m: Month0)
    ensures |MonthName(m)| == 3
    ensures MonthNameIndex(MonthName(m)) == m
  {
  }

  /** A label starts with the month's name, so it determines the month. */
  lemma MonthLabelMonth(ym: YearMonth)
    ensures MonthNameIndex(MonthLabel(ym)[..3]) == ym.month
  {
    MonthNamesInjective(ym.month);
    assert MonthLabel(ym)[..3] == MonthName(ym.month);
  }

  /** `new Date(now.getFullYear(), now.getMonth() - i, 1)`: the month `i`
      months before `now`, counted back one month at a time. */
  function MonthsBefore(now: YearMonth, i: nat): (r: YearMonth)
    ensures 12 * r.year + r.month == 12 * now.year + now.month - i
  {
    if i == 0 then now else PrevMonth(MonthsBefore(now, i - 1))
  }

  /** Counting back one month at a time lands where `Date` puts month
      `now.month - i` of year `now.year`. */
  lemma MonthsBeforeIsDate(now: YearMonth, i: nat)
    ensures MonthsBefore(now, i) == Normalize(now.year, now.month - i)
  {
    SameMonthNumber(MonthsBefore(now, i), Normalize(now.year, now.month - i));
  }

  /** The twelve months shown: the current one and the eleven before it, oldest first. */
  function MonthWindow(now: YearMonth): (w: seq<YearMonth>)
    ensures |w| == MONTHS_SHOWN
  {
    seq(MONTHS_SHOWN, k requires 0 <= k < MONTHS_SHOWN => MonthsBefore(now, MONTHS_SHOWN - 1 - k))
  }

  lemma MonthWindowAt(now: YearMonth, k: int)
    requires 0 <= k < MONTHS_SHOWN
    ensures MonthWindow(now)[k] == MonthsBefore(now, MONTHS_SHOWN - 1 - k)
  {
  }

  /** The bucket of month `ym`. */
  function MonthBucketOf(txs: seq<Tx>, ym: YearMonth): MonthBucket
  {
    MonthBucket(MonthLabel(ym), MonthIncome(txs, ym), MonthExpense(txs, ym))
  }

  /** The buckets of the `n` oldest months of the window, oldest first. */
  function MonthlyPrefix(txs: seq<Tx>, now: YearMonth, n: nat): (r: seq<MonthBucket>)
    requires n <= MONTHS_SHOWN
    ensures |r| == n
  {
    if n == 0 then []
    else MonthlyPrefix(txs, now, n - 1) + [MonthBucketOf(txs, MonthsBefore(now, MONTHS_SHOWN - n))]
  }

  /** What `calculateMonthlyStats` returns: one bucket per month of the window. */
  function MonthlyStats(txs: seq<Tx>, now: YearMonth): (r: seq<MonthBucket>)
    ensures |r| == MONTHS_SHOWN
  {
    MonthlyPrefix(txs, now, MONTHS_SHOWN)
  }

  lemma {:induction false} MonthlyPrefixAt(txs: seq<Tx>, now: YearMonth, n: nat, k: int)
    requires 0 <= k < n <= MONTHS_SHOWN
    ensures MonthlyPrefix(txs, now, n)[k] == MonthBucketOf(txs, MonthsBefore(now, MONTHS_SHOWN - 1 - k))
    decreases n
  {
    if k < n - 1 {
      MonthlyPrefixAt(txs, now, n - 1, k);
    }
  }

  lemma MonthlyStatsAt(txs: seq<Tx>, now: YearMonth, k: int)
    requires 0 <= k < MONTHS_SHOWN
    ensures MonthlyStats(txs, now)[k] == MonthBucketOf(txs, MonthWindow(now)[k])
  {
    MonthlyPrefixAt(txs, now, MONTHS_SHOWN, k);
    MonthWindowAt(now, k);
  }

  /** The two totals of month `ym`. */
  function MonthTotals(txs: seq<Tx>, ym: YearMonth): Totals
  {
    Totals(MonthIncome(txs, ym), MonthExpense(txs, ym))
  }

  /** Adding record `i` under its month keeps every month's entry equal to
      the totals of the records seen so far. */
  lemma MonthMapStep(txs: seq<Tx>, i: int, m: map<YearMonth, Totals>, m': map<YearMonth, Totals>)
    requires 0 <= i < |txs|
    requires forall ym :: Lookup(m, ym) == MonthTotals(txs[..i], ym)
    requires m' == m[txs[i].date.localMonth := AddRecord(Lookup(m, txs[i].date.localMonth), txs[i])]
    ensures forall ym :: Lookup(m', ym) == MonthTotals(txs[..i + 1], ym)
  {
    var tx := txs[i];
    forall ym ensures Lookup(m', ym) == MonthTotals(txs[..i + 1], ym) {
      SumStep(txs, i, InMonth(ym, IncomeAmount));
      SumStep(txs, i, InMonth(ym, NotIncomeAmount));
      if ym == tx.date.localMonth {
        assert InMonth(ym, IncomeAmount)(tx) == IncomeAmount(tx);
        assert InMonth(ym, NotIncomeAmount)(tx) == NotIncomeAmount(tx);
      } else {
        assert InMonth(ym, IncomeAmount)(tx) == 0 && InMonth(ym, NotIncomeAmount)(tx) == 0;
        assert Lookup(m', ym) == Lookup(m, ym);
      }
    }
  }

  /** The bucket the loop builds for the month `i` months before `now`, from a
      map that holds every month's totals, is the next bucket of the window. */
  lemma MonthlyStep(txs: seq<Tx>, now: YearMonth, m: map<YearMonth, Totals>, i: int)
    requires 0 <= i < MONTHS_SHOWN
    requires forall ym :: Lookup(m, ym) == MonthTotals(txs[..|txs|], ym)
    ensures var date := MonthsBefore(now, i);
            MonthlyPrefix(txs, now, MONTHS_SHOWN - 1 - (i - 1))
              == MonthlyPrefix(txs, now, MONTHS_SHOWN - 1 - i)
                 + [MonthBucket(MonthLabel(date), Lookup(m, date).income, Lookup(m, date).expense)]
  {
    var n := MONTHS_SHOWN - 1 - (i - 1);
    assert MONTHS_SHOWN - n == i && n - 1 == MONTHS_SHOWN - 1 - i;
    assert txs[..|txs|] == txs;
    assert Lookup(m, MonthsBefore(now, i)) == MonthTotals(txs, MonthsBefore(now, i));
  }

  /** The `forEach` callback of `calculateMonthlyStats`: the record's amount
      goes into its month's entry, which starts at zero when the month is new. */
  method AddToMonth(monthlyMap: map<YearMonth, Totals>, tx: Tx) returns (m: map<YearMonth, Totals>)
    ensures m == monthlyMap[tx.date.localMonth := AddRecord(Lookup(monthlyMap, tx.date.localMonth), tx)]
  {
    m := monthlyMap;
    var monthKey := tx.date.localMonth;
    if monthKey !in m {
      m := m[monthKey := Totals(0, 0)];
    }
    var month := m[monthKey];
    if tx.kind == INCOME {
      m := m[monthKey := month.(income := month.income + tx.amount)];
    } else {
      m := m[monthKey := month.(expense := month.expense + tx.amount)];
    }
  }

  /** `calculateMonthlyStats`, with the current local month passed in as `now`. */
  method CalculateMonthlyStats(txs: seq<Tx>, now: YearMonth) returns (result: seq<MonthBucket>)
    ensures result == MonthlyStats(txs, now)
  {
    var monthlyMap: map<YearMonth, Totals> := map[];
    for i := 0 to |txs|
      invariant forall ym :: Lookup(monthlyMap, ym) == MonthTotals(txs[..i], ym)
    {
      ghost var before := monthlyMap;
      monthlyMap := AddToMonth(monthlyMap, txs[i]);
      MonthMapStep(txs, i, before, monthlyMap);
    }
    result := [];
    var i := MONTHS_SHOWN - 1;
    while i >= 0
      invariant -1 <= i < MONTHS_SHOWN
      invariant result == MonthlyPrefix(txs, now, MONTHS_SHOWN - 1 - i)
    {
      var date := MonthsBefore(now, i);
      var monthKey := date;
      var monthLabel := MonthLabel(date);
      var data := Lookup(monthlyMap, monthKey);
      MonthlyStep(txs, now, monthlyMap, i);
      result := result + [MonthBucket(monthLabel, data.income, data.expense)];
      i := i - 1;
    }
  }

  /** The window ends with the current month, and each month is followed by
      the next one, December by January of the following year. */
  lemma MonthWindowConsecutive(now: YearMonth)
    ensures MonthWindow(now)[MONTHS_SHOWN - 1] == now
    ensures forall k :: 0 < k < MONTHS_SHOWN ==> MonthWindow(now)[k] == NextMonth(MonthWindow(now)[k - 1])
  {
    MonthWindowAt(now, MONTHS_SHOWN - 1);
    forall k | 0 < k < MONTHS_SHOWN
      ensures MonthWindow(now)[k] == NextMonth(MonthWindow(now)[k - 1])
    {
      MonthWindowAt(now, k);
      MonthWindowAt(now, k - 1);
      SameMonthNumber(MonthWindow(now)[k], NextMonth(MonthWindow(now)[k - 1]));
    }
  }

  /** Year rollover: going back past January lands in the previous year. */
  lemma MonthsBeforeRollover(now: YearMonth, i: int)
    requires 0 <= i < MONTHS_SHOWN
    ensures now.month - i >= 0 ==> MonthsBefore(now, i) == YearMonth(now.year, now.month - i)
    ensures now.month - i < 0 ==> MonthsBefore(now, i) == YearMonth(now.year - 1, now.month - i + 12)
  {
  }

  /** Two months of the window at different places are different months of the year. */
  lemma MonthWindowMonthsDiffer(now: YearMonth, j: int, k: int)
    requires 0 <= j < k < MONTHS_SHOWN
    ensures MonthWindow(now)[j].month != MonthWindow(now)[k].month
  {
    MonthWindowAt(now, j);
    MonthWindowAt(now, k);
    MonthsBeforeRollover(now, MONTHS_SHOWN - 1 - j);
    MonthsBeforeRollover(now, MONTHS_SHOWN - 1 - k);
  }

  /** The twelve months of the window are twelve different months of the year,
      so the twelve labels are different. */
  lemma MonthLabelsDistinct(now: YearMonth)
    ensures forall j, k :: 0 <= j < k < MONTHS_SHOWN ==> MonthWindow(now)[j].month != MonthWindow(now)[k].month
    ensures forall j, k :: 0 <= j < k < MONTHS_SHOWN ==> MonthLabel(MonthWindow(now)[j]) != MonthLabel(MonthWindow(now)[k])
  {
    var w := MonthWindow(now);
    forall j, k | 0 <= j < k < MONTHS_SHOWN
      ensures w[j].month != w[k].month && MonthLabel(w[j]) != MonthLabel(w[k])
    {
      MonthWindowMonthsDiffer(now, j, k);
      MonthLabelMonth(w[j]);
      MonthLabelMonth(w[k]);
    }
  }

  /** For a year of two digits or more the label is the month's three-letter
      name, a space, an apostrophe and the last two digits of the year. */
  lemma MonthLabelFormat(ym: YearMonth)
    requires ym.year >= 10
    ensures MonthLabel(ym) == MonthName(ym.month) + " '" + [DigitChar(ym.year / 10 % 10), DigitChar(ym.year % 10)]
    ensures |MonthLabel(ym)| == 7
  {
    MonthNamesInjective(ym.month);
  }

  /** The label is the template `${monthNames[m]} '${String(year).slice(-2)}`. */
  lemma MonthLabelIsTemplate(ym: YearMonth)
    ensures MonthLabel(ym) == MonthName(ym.month) + " '" + SliceLastTwo(IntToString(ym.year))
  {
    YearSuffixIsSlice(ym.year);
  }

  /** A month without records has a zero bucket. */
  lemma {:induction false} MonthZeroFill(txs: seq<Tx>, ym: YearMonth)
    requires forall i :: 0 <= i < |txs| ==> txs[i].date.localMonth != ym
    ensures MonthIncome(txs, ym) == 0 && MonthExpense(txs, ym) == 0
  {
    SumZero(txs, InMonth(ym, IncomeAmount));
    SumZero(txs, InMonth(ym, NotIncomeAmount));
  }

  /** Records of months outside the window do not change any bucket. */
  lemma OutsideMonthsIgnored(txs: seq<Tx>, extra: seq<Tx>, now: YearMonth)
    requires forall i :: 0 <= i < |extra| ==> extra[i].date.localMonth !in MonthWindow(now)
    ensures MonthlyStats(txs + extra, now) == MonthlyStats(txs, now)
  {
    var w := MonthWindow(now);
    forall k | 0 <= k < MONTHS_SHOWN
      ensures MonthlyStats(txs + extra, now)[k] == MonthlyStats(txs, now)[k]
    {
      MonthZeroFill(extra, w[k]);
      SumAppend(txs, extra, InMonth(w[k], IncomeAmount));
      SumAppend(txs, extra, InMonth(w[k], NotIncomeAmount));
      MonthlyStatsAt(txs + extra, now, k);
      MonthlyStatsAt(txs, now, k);
    }
  }

  // ------------------------------------------------------------ categories

  /** `calculateCategoryStats`: the expense total of each category, largest
      first, ties in the order the categories were first met. */
  method CalculateCategoryStats(txs: seq<Tx>) returns (result: seq<CategoryStat>)
    ensures result == CategoryRanking(txs)
  {
    var names: seq<string> := [];
    var categoryMap: map<string, int> := map[];
    for i := 0 to |txs|
      invariant Tallied(txs[..i], names, categoryMap)
    {
      var tx := txs[i];
      ghost var before, beforeNames := categoryMap, names;
      if tx.kind == EXPENSE {
        var current := if tx.category in categoryMap then categoryMap[tx.category] else 0;
        if tx.category !in categoryMap {
          names := names + [tx.category];
        }
        categoryMap := categoryMap[tx.category := current + tx.amount];
      }
      TallyStep(txs, i, beforeNames, before, names, categoryMap);
    }
    assert txs[..|txs|] == txs;
    TalliedBreakdown(txs, names, categoryMap);
    var entries := seq(|names|, k requires 0 <= k < |names| && names[k] in categoryMap => CategoryStat(names[k], categoryMap[names[k]]));
    result := SortDesc(entries);
  }
}
