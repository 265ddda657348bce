/** The spending summary of `services/gemini.js` and the templated insight it
    falls back to when the remote service does not answer. Here only a type of
    exactly `"expense"` counts as expense; other types are ignored. */
module Insights {
  import opened Records
  import opened Sorting
  import opened Categories

  const TOP_SHOWN: nat := 3
  const TIP_THRESHOLD: real := 100.0
  const DEFAULT_CATEGORY: string := "various categories"

  /** The object `analyzeTransactions` returns. */
  datatype Summary = Summary(totalIncome: int, totalExpense: int, netBalance: int,
                             topCategories: seq<CategoryStat>, avgDaily: real, days: int)

  // ------------------------------------------------------------- filtering

  /** `transactions.filter(t => t.type === kind)`. */
  function OfKind(txs: seq<Tx>, kind: string): (r: seq<Tx>)
    ensures |r| <= |txs|
    ensures forall i :: 0 <= i < |r| ==> r[i].kind == kind
  {
    if txs == [] then []
    else
      var p, t := OfKind(txs[..|txs| - 1], kind), txs[|txs| - 1];
      if t.kind == kind then p + [t] else p
  }

  /** A record is kept exactly when it is one of the input's and of the given type. */
  lemma {:induction false} OfKindMembers(txs: seq<Tx>, kind: string, t: Tx)
    ensures t in OfKind(txs, kind) <==> t in txs && t.kind == kind
    decreases |txs|
  {
    if txs != [] {
      var p := txs[..|txs| - 1];
      OfKindMembers(p, kind, t);
      SplitLast(txs);
    }
  }

  /** Summing the income records' amounts is summing every record's income amount. */
  lemma {:induction false} IncomeFilterSum(txs: seq<Tx>)
    ensures Sum(OfKind(txs, INCOME), AmountOf) == Sum(txs, IncomeAmount)
    decreases |txs|
  {
    if txs != [] {
      var p, t := txs[..|txs| - 1], txs[|txs| - 1];
      IncomeFilterSum(p);
      if t.kind == INCOME {
        SumSnoc(OfKind(p, INCOME), t, AmountOf);
      }
    }
  }

  /** Summing the expense records' amounts is summing every record's expense amount. */
  lemma {:induction false} ExpenseFilterSum(txs: seq<Tx>)
    ensures Sum(OfKind(txs, EXPENSE), AmountOf) == Sum(txs, ExpenseAmount)
    decreases |txs|
  {
    if txs != [] {
      var p, t := txs[..|txs| - 1], txs[|txs| - 1];
      ExpenseFilterSum(p);
      if t.kind == EXPENSE {
        SumSnoc(OfKind(p, EXPENSE), t, AmountOf);
      }
    }
  }

  /** Keeping only the expense records changes no category's sum. */
  lemma {:induction false} ExpenseFilterCategorySum(txs: seq<Tx>, c: string)
    ensures CategorySum(OfKind(txs, EXPENSE), c) == CategorySum(txs, c)
    decreases |txs|
  {
    if txs != [] {
      var p, t := txs[..|txs| - 1], txs[|txs| - 1];
      ExpenseFilterCategorySum(p, c);
      if t.kind == EXPENSE {
        SumSnoc(OfKind(p, EXPENSE), t, ExpenseIn(c));
      }
    }
  }

  /** Keeping only the expense records keeps the categories in the same first-met order. */
  lemma {:induction false} ExpenseFilterFirstSeen(txs: seq<Tx>)
    ensures FirstSeen(OfKind(txs, EXPENSE)) == FirstSeen(txs)
    decreases |txs|
  {
    if txs != [] {
      var p, t := txs[..|txs| - 1], txs[|txs| - 1];
      ExpenseFilterFirstSeen(p);
      if t.kind == EXPENSE {
        var e := OfKind(p, EXPENSE) + [t];
        assert e[..|e| - 1] == OfKind(p, EXPENSE);
      }
    }
  }

  /** Keeping only the expense records leaves the category breakdown as it is. */
  lemma ExpenseFilterBreakdown(txs: seq<Tx>)
    ensures Breakdown(OfKind(txs, EXPENSE)) == Breakdown(txs)
  {
    var e := OfKind(txs, EXPENSE);
    ExpenseFilterFirstSeen(txs);
    forall k | 0 <= k < |FirstSeen(txs)| ensures Breakdown(e)[k] == Breakdown(txs)[k] {
      ExpenseFilterCategorySum(txs, FirstSeen(txs)[k]);
    }
  }

  // -------------------------------------------------------------- day span

  /** `Math.min(...dates)` over a non-empty list. */
  function MinMs(txs: seq<Tx>): (m: int)
    requires txs != []
    ensures forall i :: 0 <= i < |txs| ==> m <= txs[i].date.ms
    ensures exists i :: 0 <= i < |txs| && m == txs[i].date.ms
  {
    if |txs| == 1 then txs[0].date.ms
    else
      var m := MinMs(txs[..|txs| - 1]);
      var x := txs[|txs| - 1].date.ms;
      assert forall i :: 0 <= i < |txs| - 1 ==> txs[..|txs| - 1][i] == txs[i];
      if x < m then x else m
  }

  /** `Math.max(...dates)` over a non-empty list. */
  function MaxMs(txs: seq<Tx>): (m: int)
    requires txs != []
    ensures forall i :: 0 <= i < |txs| ==> txs[i].date.ms <= m
    ensures exists i :: 0 <= i < |txs| && m == txs[i].date.ms
  {
    if |txs| == 1 then txs[0].date.ms
    else
      var m := MaxMs(txs[..|txs| - 1]);
      var x := txs[|txs| - 1].date.ms;
      assert forall i :: 0 <= i < |txs| - 1 ==> txs[..|txs| - 1][i] == txs[i];
      if x > m then x else m
  }

  /** `Math.ceil(a / b)` for a positive divisor. */
  function CeilDiv(a: int, b: int): (q: int)
    requires b > 0
    ensures (q - 1) * b < a <= q * b
  {
    (a + b - 1) / b
  }

  /** `Math.ceil((maxDate - minDate) / DAY) || 1`. For an empty list the
      difference is `NaN`, and `NaN` as well as `0` is replaced by 1. */
  function SpanDays(txs: seq<Tx>): (days: int)
  {
    if txs == [] then 1
    else
      var q := CeilDiv(MaxMs(txs) - MinMs(txs), MS_PER_DAY);
      if q == 0 then 1 else q
  }

  /** The span is at least one day. */
  lemma SpanDaysPositive(txs: seq<Tx>)
    ensures SpanDays(txs) >= 1
  {
    if txs != [] {
      var span := MaxMs(txs) - MinMs(txs);
      assert span >= 0;
    }
  }

  /** The span is one day for an empty list and for records that all share one instant. */
  lemma SpanDaysOne(txs: seq<Tx>)
    requires forall i, j :: 0 <= i < |txs| && 0 <= j < |txs| ==> txs[i].date.ms == txs[j].date.ms
    ensures SpanDays(txs) == 1
  {
    if txs != [] {
      var mx := MaxMs(txs);
      var mn := MinMs(txs);
      var a :| 0 <= a < |txs| && mx == txs[a].date.ms;
      var b :| 0 <= b < |txs| && mn == txs[b].date.ms;
      assert mx - mn == 0;
    }
  }

  /** For a positive spread the span is the number of whole or partial days it covers. */
  lemma SpanDaysCeiling(txs: seq<Tx>)
    requires txs != [] && MaxMs(txs) > MinMs(txs)
    ensures (SpanDays(txs) - 1) * MS_PER_DAY < MaxMs(txs) - MinMs(txs) <= SpanDays(txs) * MS_PER_DAY
  {
  }

  // --------------------------------------------------------------- summary

  /** What `analyzeTransactions` promises: the exact-type totals, their
      difference, the three largest categories and the average spend per day. */
  function Analyze(txs: seq<Tx>): Summary
  {
    SpanDaysPositive(txs);
    var totalIncome, totalExpense := Sum(txs, IncomeAmount), Sum(txs, ExpenseAmount);
    var days := SpanDays(txs);
    Summary(totalIncome, totalExpense, totalIncome - totalExpense,
            Take(CategoryRanking(txs), TOP_SHOWN), totalExpense as real / days as real, days)
  }

  /** `analyzeTransactions`: filters, reduces, and accumulates the category
      `Map` over the expense records. */
  method AnalyzeTransactions(txs: seq<Tx>) returns (summary: Summary)
    ensures summary == Analyze(txs)
  {
    var income := OfKind(txs, INCOME);
    var expenses := OfKind(txs, EXPENSE);
    var totalIncome := Sum(income, AmountOf);
    var totalExpense := Sum(expenses, AmountOf);
    IncomeFilterSum(txs);
    ExpenseFilterSum(txs);

    var names: seq<string> := [];
    var categoryMap: map<string, int> := map[];
    for i := 0 to |expenses|
      invariant Tallied(expenses[..i], names, categoryMap)
    {
      var tx := expenses[i];
      ghost var before, beforeNames := categoryMap, names;
      var current := if tx.category in categoryMap then categoryMap[tx.category] else 0;
      if tx.category !in categoryMap {
        names := names + [tx.category];
      }
      categoryMap := categoryMap[tx.category := current + tx.amount];
      TallyStep(expenses, i, beforeNames, before, names, categoryMap);
    }
    assert expenses[..|expenses|] == expenses;
    TalliedBreakdown(expenses, names, categoryMap);
    var entries := seq(|names|, k requires 0 <= k < |names| && names[k] in categoryMap => CategoryStat(names[k], categoryMap[names[k]]));
    ExpenseFilterBreakdown(txs);
    var topCategories := Take(SortDesc(entries), TOP_SHOWN);

    var days := SpanDays(txs);
    SpanDaysPositive(txs);
    assert topCategories == Take(CategoryRanking(txs), TOP_SHOWN);
    summary := Summary(totalIncome, totalExpense, totalIncome - totalExpense,
                       topCategories, totalExpense as real / days as real, days);
  }

  /** The top categories are at most three, the largest first, each with its
      category's expense sum, and they begin the full ranking. */
  lemma TopCategories(txs: seq<Tx>)
    ensures |Analyze(txs).topCategories| <= TOP_SHOWN
    ensures SortedDesc(Analyze(txs).topCategories)
    ensures DistinctNames(Analyze(txs).topCategories)
    ensures forall i :: 0 <= i < |Analyze(txs).topCategories| ==>
              Analyze(txs).topCategories[i] == CategoryRanking(txs)[i]
    ensures forall i :: 0 <= i < |Analyze(txs).topCategories| ==>
              Analyze(txs).topCategories[i].value == CategorySum(txs, Analyze(txs).topCategories[i].name)
  {
    var r := CategoryRanking(txs);
    var top := Analyze(txs).topCategories;
    RankingSorted(txs);
    RankingValues(txs);
    assert top == r[..|top|];
    forall i | 0 <= i < |top| ensures top[i] == r[i] {
    }
  }

  /** Without a single record of type `"expense"` there is no top category. */
  lemma NoExpenseNoTop(txs: seq<Tx>)
    requires forall i :: 0 <= i < |txs| ==> txs[i].kind != EXPENSE
    ensures Analyze(txs).topCategories == []
    ensures Analyze(txs).totalExpense == 0
  {
    if FirstSeen(txs) != [] {
      FirstSeenMembers(txs, FirstSeen(txs)[0]);
    }
    forall i | 0 <= i < |txs| ensures ExpenseAmount(txs[i]) == 0 {
    }
    SumZero(txs, ExpenseAmount);
  }

  /** A category's expense sum is at most the expense total when no amount is negative. */
  lemma {:induction false} CategoryWithinTotal(txs: seq<Tx>, c: string)
    requires forall i :: 0 <= i < |txs| ==> txs[i].amount >= 0
    ensures 0 <= CategorySum(txs, c) <= Sum(txs, ExpenseAmount)
    decreases |txs|
  {
    if txs != [] {
      CategoryWithinTotal(txs[..|txs| - 1], c);
    }
  }

  // ------------------------------------------------------------- fallback

  /** The sentences of the templated insight; the numbers they show are
      given exactly, before `toFixed`/`Math.round` formatting. */
  datatype Sentence =
    | Saving(ratePercent: real)
    | Overspending
    | BiggestExpense(category: string, sharePercent: real)
    | DailyTip(perDay: int)
    | KeepMonitoring

  /** `(netBalance / totalIncome) * 100` when there is income, else 0. */
  function SavingsRate(s: Summary): (rate: real)
    ensures s.totalIncome <= 0 ==> rate == 0.0
    ensures s.totalIncome > 0 ==> rate * s.totalIncome as real == s.netBalance as real * 100.0
  {
    if s.totalIncome > 0 then (s.netBalance as real / s.totalIncome as real) * 100.0 else 0.0
  }

  /** `topCategories[0]?.name || 'various categories'`: the empty name is falsy too. */
  function TopCategoryName(s: Summary): (name: string)
    ensures s.topCategories == [] ==> name == DEFAULT_CATEGORY
    ensures s.topCategories != [] && s.topCategories[0].name != "" ==> name == s.topCategories[0].name
    ensures s.topCategories != [] && s.topCategories[0].name == "" ==> name == DEFAULT_CATEGORY
    ensures name != ""
  {
    if s.topCategories != [] && s.topCategories[0].name != "" then s.topCategories[0].name
    else DEFAULT_CATEGORY
  }

  /** `topCategories[0]?.value || 0`. */
  function TopCategoryAmount(s: Summary): (v: int)
    ensures s.topCategories == [] ==> v == 0
    ensures s.topCategories != [] ==> v == s.topCategories[0].value
  {
    if s.topCategories != [] then s.topCategories[0].value else 0
  }

  /** The top category's share of total spending, in percent; 0 without spending. */
  function TopCategoryPercent(s: Summary): (p: real)
    ensures s.totalExpense <= 0 ==> p == 0.0
    ensures s.totalExpense > 0 ==> p * s.totalExpense as real == TopCategoryAmount(s) as real * 100.0
  {
    if s.totalExpense > 0 then (TopCategoryAmount(s) as real / s.totalExpense as real) * 100.0 else 0.0
  }

  /** `Math.round`: the nearest integer, halves rounded up. */
  function RoundHalfUp(x: real): (n: int)
    ensures n as real - 0.5 <= x < n as real + 0.5
  {
    (x + 0.5).Floor
  }

  /** `generateFallbackInsights`: the opening sentence, the biggest expense,
      the daily tip when the average daily spend is over 100, and the closing line. */
  method GenerateFallbackInsights(s: Summary) returns (insight: seq<Sentence>)
    ensures 3 <= |insight| <= 4
    ensures insight[0] == if s.netBalance > 0 then Saving(SavingsRate(s)) else Overspending
    ensures insight[1] == BiggestExpense(TopCategoryName(s), TopCategoryPercent(s))
    ensures |insight| == 4 <==> s.avgDaily > TIP_THRESHOLD
    ensures |insight| == 4 ==> insight[2] == DailyTip(RoundHalfUp(s.avgDaily))
    ensures insight[|insight| - 1] == KeepMonitoring
  {
    var savingsRate := SavingsRate(s);
    var topCategory := TopCategoryName(s);
    var topCategoryPercent := TopCategoryPercent(s);
    if s.netBalance > 0 {
      insight := [Saving(savingsRate)];
    } else {
      insight := [Overspending];
    }
    insight := insight + [BiggestExpense(topCategory, topCategoryPercent)];
    if s.avgDaily > TIP_THRESHOLD {
      insight := insight + [DailyTip(RoundHalfUp(s.avgDaily))];
    }
    insight := insight + [KeepMonitoring];
  }

  /** Dividing by a positive number and comparing is comparing against the product. */
  lemma DivAbove(x: real, d: real, t: real)
    requires d > 0.0
    ensures x / d > t <==> x > t * d
  {
    var q := x / d;
    assert q * d == x;
    if q > t {
      assert (q - t) * d > 0.0;
    } else {
      assert (t - q) * d >= 0.0;
    }
  }

  /** The tip appears exactly when the expense total is over 100 per day of the span. */
  lemma TipThreshold(txs: seq<Tx>)
    ensures Analyze(txs).avgDaily > TIP_THRESHOLD
        <==> Analyze(txs).totalExpense > 100 * Analyze(txs).days
  {
    var a := Analyze(txs);
    SpanDaysPositive(txs);
    DivAbove(a.totalExpense as real, a.days as real, TIP_THRESHOLD);
  }

  /** Saving is reported exactly when the exact-type income exceeds the exact-type
      expense, and then the savings rate is positive. */
  lemma SavingIffIncomeExceeds(txs: seq<Tx>)
    ensures Analyze(txs).netBalance > 0 <==> Sum(txs, IncomeAmount) > Sum(txs, ExpenseAmount)
    ensures Analyze(txs).netBalance > 0 && Analyze(txs).totalIncome > 0 ==> SavingsRate(Analyze(txs)) > 0.0
  {
    var a := Analyze(txs);
    if a.netBalance > 0 && a.totalIncome > 0 {
      DivAbove(a.netBalance as real, a.totalIncome as real, 0.0);
    }
  }

  /** With no expense record the biggest expense is "various categories" at 0%. */
  lemma NoExpenseDefaults(txs: seq<Tx>)
    requires forall i :: 0 <= i < |txs| ==> txs[i].kind != EXPENSE
    ensures TopCategoryName(Analyze(txs)) == DEFAULT_CATEGORY
    ensures TopCategoryPercent(Analyze(txs)) == 0.0
  {
    NoExpenseNoTop(txs);
  }

  /** When no amount is negative, the biggest expense's share is at most 100%. */
  lemma TopShareAtMostAll(txs: seq<Tx>)
    requires forall i :: 0 <= i < |txs| ==> txs[i].amount >= 0
    ensures 0.0 <= TopCategoryPercent(Analyze(txs)) <= 100.0
  {
    var a := Analyze(txs);
    if a.topCategories != [] {
      TopCategories(txs);
      CategoryWithinTotal(txs, a.topCategories[0].name);
      if a.totalExpense > 0 {
        var e, v := a.totalExpense as real, TopCategoryAmount(a) as real;
        DivAbove(v, e, 1.0);
        DivAbove(v, e, 0.0);
        assert 0.0 <= v / e <= 1.0;
      }
    }
  }
}
