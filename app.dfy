/** The in-memory ledger of the dashboard page, `app.js`: the headline totals,
    the chart that follows the selected time range, the recent list with its
    category icons, and the delete and edit operations on `appState`. Here
    only the exact types `"income"` and `"expense"` are counted. */
module App {
  import opened Options
  import opened Calendar
  import opened Records
  import opened Text
  import opened Dashboard
  import opened Insights

  const RECENT_SHOWN: nat := 10
  const DEFAULT_ICON: string := "ph-currency-dollar"
  const MONTHLY: string := "monthly"

  /** The three numbers `renderStats` shows. */
  datatype Stats = Stats(income: int, expense: int, balance: int)

  /** The data behind the main chart. */
  datatype Chart = DailyChart(days: seq<DayBucket>) | MonthlyChart(months: seq<MonthBucket>)

  // ------------------------------------------------------------ delete/edit

  /** `transactions.filter(t => t.id !== id)`. */
  function WithoutId(s: seq<Tx>, id: string): (r: seq<Tx>)
    ensures |r| <= |s|
    ensures forall t :: t in r <==> t in s && t.id != id
  {
    if s == [] then []
    else
      var p, t := WithoutId(s[..|s| - 1], id), s[|s| - 1];
      assert s == s[..|s| - 1] + [t];
      if t.id != id then p + [t] else p
  }

  /** The filter works piece by piece, so the kept records stay in their order. */
  lemma {:induction false} WithoutIdAppend(a: seq<Tx>, b: seq<Tx>, id: string)
    ensures WithoutId(a + b, id) == WithoutId(a, id) + WithoutId(b, id)
    decreases |b|
  {
    if b == [] {
      assert a + b == a;
    } else {
      var b', t := b[..|b| - 1], b[|b| - 1];
      assert (a + b)[..|a + b| - 1] == a + b';
      WithoutIdAppend(a, b', id);
      var wa, wb, e := WithoutId(a, id), WithoutId(b', id), if t.id != id then [t] else [];
      assert WithoutId(a + b, id) == WithoutId(a + b', id) + e;
      assert WithoutId(b, id) == wb + e;
      assert wa + (wb + e) == (wa + wb) + e;
    }
  }

  /** Without a record of that id nothing is removed. */
  lemma {:induction false} WithoutAbsentId(s: seq<Tx>, id: string)
    requires forall i :: 0 <= i < |s| ==> s[i].id != id
    ensures WithoutId(s, id) == s
    decreases |s|
  {
    if s != [] {
      WithoutAbsentId(s[..|s| - 1], id);
      SplitLast(s);
    }
  }

  /** Deleting twice is deleting once. */
  lemma WithoutIdIdempotent(s: seq<Tx>, id: string)
    ensures WithoutId(WithoutId(s, id), id) == WithoutId(s, id)
  {
    var r := WithoutId(s, id);
    forall i | 0 <= i < |r| ensures r[i].id != id {
      assert r[i] in r;
    }
    WithoutAbsentId(r, id);
  }

  /** The position of the first record with id `id`: `Array.prototype.find`. */
  function FindById(s: seq<Tx>, id: string): (r: Option<nat>)
    ensures r.Some? ==> r.value < |s| && s[r.value].id == id
    ensures r.Some? ==> forall j :: 0 <= j < r.value ==> s[j].id != id
    ensures r.None? ==> forall j :: 0 <= j < |s| ==> s[j].id != id
  {
    if s == [] then None
    else if s[0].id == id then Some(0)
    else
      match FindById(s[1..], id)
      case None => None
      case Some(k) => Some(k + 1)
  }

  /** The list after the edit: the first record with id `id` gets the new
      amount, category and description. */
  function EditFirst(s: seq<Tx>, id: string, amount: int, category: string, description: string): seq<Tx>
  {
    match FindById(s, id)
    case None => s
    case Some(i) => s[i := s[i].(amount := amount, category := category, description := description)]
  }

  /** An edit changes the amount, category and description of the first record
      with the id, keeps its id, type and date, and leaves every other record alone. */
  lemma EditChangesOnlyFirstMatch(s: seq<Tx>, id: string, amount: int, category: string, description: string)
    requires FindById(s, id).Some?
    ensures var r, i := EditFirst(s, id, amount, category, description), FindById(s, id).value;
            |r| == |s|
            && r[i].amount == amount && r[i].category == category && r[i].description == description
            && r[i].id == s[i].id && r[i].kind == s[i].kind && r[i].date == s[i].date
            && (forall j :: 0 <= j < |s| && j != i ==> r[j] == s[j])
  {
  }

  /** With no record of that id the list is unchanged. */
  lemma EditAbsentId(s: seq<Tx>, id: string, amount: int, category: string, description: string)
    requires forall j :: 0 <= j < |s| ==> s[j].id != id
    ensures EditFirst(s, id, amount, category, description) == s
  {
  }

  /** Only records with a matching id can change, and only the first of them. */
  lemma EditKeepsOtherIds(s: seq<Tx>, id: string, amount: int, category: string, description: string)
    ensures |EditFirst(s, id, amount, category, description)| == |s|
    ensures forall j :: 0 <= j < |s| && s[j].id != id ==> EditFirst(s, id, amount, category, description)[j] == s[j]
    ensures forall j :: 0 <= j < |s| ==> EditFirst(s, id, amount, category, description)[j].id == s[j].id
  {
  }

  // ------------------------------------------------------------------ icons

  /** The icon of a category: the `switch` on `category.toLowerCase()`. */
  function IconFor(category: string): string
  {
    var c := ToLower(category);
    if c == "food & dining" then "ph-coffee"
    else if c == "shopping" then "ph-shopping-bag"
    else if c == "transportation" then "ph-car"
    else if c == "bills & utilities" then "ph-lightning"
    else if c == "salary" then "ph-briefcase"
    else if c == "entertainment" then "ph-film-strip"
    else DEFAULT_ICON
  }

  const ICON_CATEGORIES: seq<string> :=
    ["food & dining", "shopping", "transportation", "bills & utilities", "salary", "entertainment"]

  /** The lookup ignores ASCII case: a category and its lower-case form get the same icon. */
  lemma IconIgnoresCase(category: string)
    ensures IconFor(category) == IconFor(ToLower(category))
  {
    ToLowerIdempotent(category);
  }

  /** The default icon goes exactly to the categories outside the six known ones. */
  lemma DefaultIcon(category: string)
    ensures IconFor(category) == DEFAULT_ICON <==> ToLower(category) !in ICON_CATEGORIES
  {
  }

  /** `transactions.slice(0, 10)`: the records the recent list shows. */
  function RecentTransactions(s: seq<Tx>): (r: seq<Tx>)
    ensures |r| == if |s| < RECENT_SHOWN then |s| else RECENT_SHOWN
    ensures r == s[..|r|]
  {
    if |s| < RECENT_SHOWN then s else s[..RECENT_SHOWN]
  }

  // ------------------------------------------------------------------ state

  /** The part of `appState` the ledger operations read and write. */
  class AppState {
    var transactions: seq<Tx>
    var timeRange: string

    constructor(loaded: seq<Tx>)
      ensures transactions == loaded && timeRange == "daily"
    {
      transactions := loaded;
      timeRange := "daily";
    }

    /** `renderStats`: the exact-type totals and the balance between them,
        which are the totals and net balance of the summary. */
    method RenderStats() returns (s: Stats)
      ensures s.income == Sum(transactions, IncomeAmount)
      ensures s.expense == Sum(transactions, ExpenseAmount)
      ensures s.balance == s.income - s.expense
      ensures s == Stats(Analyze(transactions).totalIncome, Analyze(transactions).totalExpense,
                         Analyze(transactions).netBalance)
    {
      var income := Sum(OfKind(transactions, INCOME), AmountOf);
      var expense := Sum(OfKind(transactions, EXPENSE), AmountOf);
      IncomeFilterSum(transactions);
      ExpenseFilterSum(transactions);
      s := Stats(income, expense, income - expense);
    }

    /** The chart data of `renderCharts`: monthly buckets exactly when the time
        range is `'monthly'`, daily buckets for every other value. */
    method RenderCharts(today: int, now: YearMonth) returns (c: Chart)
      ensures c.MonthlyChart? <==> timeRange == MONTHLY
      ensures c.MonthlyChart? ==> c.months == MonthlyStats(transactions, now)
      ensures c.DailyChart? ==> c.days == DailyStats(transactions, today)
    {
      if timeRange == MONTHLY {
        var monthlyData := CalculateMonthlyStats(transactions, now);
        c := MonthlyChart(monthlyData);
      } else {
        var dailyData := CalculateDailyStats(transactions, today);
        c := DailyChart(dailyData);
      }
    }

    /** The time-range selector's `change` handler. */
    method SetTimeRange(value: string)
      modifies this
      ensures timeRange == value && transactions == old(transactions)
    {
      timeRange := value;
    }

    /** The delete button: after confirmation and a successful request, every
        record with the id is dropped. */
    method Delete(id: string, confirmed: bool, ok: bool)
      modifies this
      ensures transactions == if confirmed && ok then WithoutId(old(transactions), id) else old(transactions)
      ensures timeRange == old(timeRange)
    {
      if !confirmed {
        return;
      }
      if !ok {
        return;
      }
      transactions := WithoutId(transactions, id);
    }

    /** The edit form's submit: with an id and a successful request, the first
        record with that id gets the new amount and the trimmed category and description. */
    method SubmitEdit(editingId: Option<string>, newAmount: int, rawCategory: string,
                      rawDescription: string, ok: bool)
      modifies this
      ensures editingId.Some? && editingId.value != "" && ok ==>
                transactions == EditFirst(old(transactions), editingId.value, newAmount,
                                          Trim(rawCategory), Trim(rawDescription))
      ensures !(editingId.Some? && editingId.value != "" && ok) ==> transactions == old(transactions)
      ensures timeRange == old(timeRange)
    {
      if editingId.None? || editingId.value == "" {
        return;
      }
      var newCategory := Trim(rawCategory);
      var newDescription := Trim(rawDescription);
      if !ok {
        return;
      }
      match FindById(transactions, editingId.value) {
        case None =>
          return;
        case Some(i) =>
          var tx := transactions[i];
          tx := tx.(amount := newAmount);
          tx := tx.(category := newCategory);
          tx := tx.(description := newDescription);
          transactions := transactions[i := tx];
      }
    }
  }

  /** The edited category and description are stored without surrounding whitespace. */
  lemma EditStoresTrimmed(s: seq<Tx>, id: string, amount: int, rawCategory: string, rawDescription: string)
    requires FindById(s, id).Some?
    ensures var r := EditFirst(s, id, amount, Trim(rawCategory), Trim(rawDescription));
            IsTrimmed(r[FindById(s, id).value].category) && IsTrimmed(r[FindById(s, id).value].description)
  {
  }

  /** Deleting an id takes away exactly the contribution of its records, for
      any per-record amount `f`. */
  lemma {:induction false} DeleteTotals(s: seq<Tx>, id: string, f: Tx -> int)
    ensures Sum(WithoutId(s, id), f) + Sum(s, OfId(id, f)) == Sum(s, f)
    decreases |s|
  {
    if s != [] {
      var p, t := s[..|s| - 1], s[|s| - 1];
      DeleteTotals(p, id, f);
      if t.id != id {
        SumSnoc(WithoutId(p, id), t, f);
      }
    }
  }

  /** `f` restricted to the records with id `id`. */
  function OfId(id: string, f: Tx -> int): Tx -> int
  {
    (t: Tx) => if t.id == id then f(t) else 0
  }
}
