/** The earlier revision of the dashboard (scripts/Dashboard.js): no
    period filter, totals and charts over normal expenses only, recent
    transactions from revenues and normal expenses, and a fixed window of
    the last six months. */
module DashboardEarly {
  import opened Dates
  import opened Records
  import opened Aggregates
  import opened DataStorage
  import Dashboard

  datatype Metrics = Metrics(income: int, expenses: int, balance: int)

  /** The totals of `updateMetrics`: only `expenses` counts as spending. */
  function UpdateMetrics(d: Doc): (m: Metrics)
    ensures m.income == Total(d.revenues) && m.expenses == Total(d.expenses)
    ensures m.balance == m.income - m.expenses
  {
    var income := Total(d.revenues);
    var expenses := Total(d.expenses);
    Metrics(income, expenses, income - expenses)
  }

  /** Future expenses never reach these totals, and the balance is higher
      than the later dashboard's by exactly their sum. */
  lemma MetricsIgnoreFuture(d: Doc, x: Record)
    ensures UpdateMetrics(AppendTo(d, FutureExpenses, x)) == UpdateMetrics(d)
    ensures UpdateMetrics(d).balance == Dashboard.UpdateMetrics(d).balance + Total(d.futureExpenses)
  {
  }

  /** Revenues and normal expenses tagged, newest first, cut to ten. */
  function RecentTransactions(d: Doc): seq<Record> {
    Take(SortDesc(Dashboard.Tag(d.revenues, Dashboard.Income) + Dashboard.Tag(d.expenses, Dashboard.Expense),
                  Dashboard.DateKey), 10)
  }

  /** Ten transactions at most, newest first, every one a revenue or a
      normal expense - never a future one - and none left out newer than
      any shown. */
  lemma RecentTransactionsLaws(d: Doc)
    ensures |RecentTransactions(d)| == if |d.revenues| + |d.expenses| < 10 then |d.revenues| + |d.expenses| else 10
    ensures NonIncreasing(RecentTransactions(d), Dashboard.DateKey)
    ensures forall t :: t in RecentTransactions(d) ==> Dashboard.FromList(t, d.(futureExpenses := []))
    ensures forall t, i :: (Dashboard.FromList(t, d.(futureExpenses := [])) && t !in RecentTransactions(d)
              && 0 <= i < |RecentTransactions(d)|)
              ==> Dashboard.DateKey(RecentTransactions(d)[i]) >= Dashboard.DateKey(t)
  {
    var d0 := d.(futureExpenses := []);
    var all := Dashboard.Tag(d.revenues, Dashboard.Income) + Dashboard.Tag(d.expenses, Dashboard.Expense);
    assert Dashboard.AllTagged(d0) == all;
    Dashboard.AllTaggedExactly(d0);
    SortedCutLaws(all, Dashboard.DateKey, 10);
  }

  // ---------------------------------------------------------------
  // The six-month window
  // ---------------------------------------------------------------

  /** The month numbered `n` by `MonthIndex`. */
  function MonthAt(n: int): (k: MonthKey)
    ensures k.Month? && 1 <= k.month <= 12 && MonthIndex(k) == n
  {
    Month(n / 12, n % 12 + 1)
  }

  lemma MonthAtShift(y: int, n: int)
    ensures MonthAt(12 * y + n) == Month(y + n / 12, n % 12 + 1)
  {
    var q, r := n / 12, n % 12;
    assert 12 * y + n == 12 * (y + q) + r;
  }

  /** The window of `groupByMonth`: the five months before that of `today`
      and that month, oldest first. */
  function Window(today: Date): (ks: seq<MonthKey>)
    ensures |ks| == 6
    ensures forall k :: 0 <= k < 6 ==> MonthIndex(ks[k]) == MonthIndex(MonthOf(today)) - 5 + k
  {
    var ks := seq(6, k requires 0 <= k < 6 => MonthAt(MonthIndex(MonthOf(today)) - 5 + k));
    assert forall k :: 0 <= k < 6 ==> ks[k] == MonthAt(MonthIndex(MonthOf(today)) - 5 + k);
    ks
  }

  /** The window has six distinct months and ends with the month of `today`. */
  lemma WindowDistinct(today: Date)
    requires Valid(today)
    ensures Distinct(Window(today))
    ensures Window(today)[5] == MonthOf(today)
  {
    MonthAtShift(today.year, today.month - 1);
  }

  /** The window holds a record's month exactly when that month lies at
      most five months back. */
  lemma WindowMembership(today: Date, x: Record)
    ensures Dashboard.RecordMonth(x) in Window(today) <==>
              Valid(x.date) && MonthIndex(MonthOf(today)) - 5 <= MonthIndex(MonthOf(x.date)) <= MonthIndex(MonthOf(today))
  {
    var w := Window(today);
    var n := MonthIndex(MonthOf(today));
    if Valid(x.date) && n - 5 <= MonthIndex(MonthOf(x.date)) <= n {
      var k := MonthIndex(MonthOf(x.date)) - n + 5;
      MonthAtShift(x.date.year, x.date.month - 1);
      assert w[k] == Dashboard.RecordMonth(x);
    }
    if Dashboard.RecordMonth(x) in w {
      var k :| 0 <= k < 6 && w[k] == Dashboard.RecordMonth(x);
      assert w[k] == MonthAt(n - 5 + k);
      assert MonthOf(x.date).Month?;
    }
  }

  /** `for (let i = 5; i >= 0; i--)` creates the buckets, oldest month
      first; then each revenue and each normal expense is added to the
      bucket of its month, if there is one. */
  method GroupByMonth(d: Doc, today: Date) returns (labels: seq<MonthKey>, income: seq<int>, expenses: seq<int>)
    requires Valid(today)
    ensures labels == Window(today)
    ensures |income| == 6 && |expenses| == 6
    ensures forall j :: 0 <= j < 6 ==>
              income[j] == SumAt(d.revenues, Dashboard.RecordMonth, labels[j])
              && expenses[j] == SumAt(d.expenses, Dashboard.RecordMonth, labels[j])
  {
    var y, m0 := today.year, today.month - 1;
    var months: seq<MonthKey> := [];
    var i := 5;
    while i >= 0
      invariant -1 <= i <= 5 && |months| == 5 - i
      invariant forall k :: 0 <= k < |months| ==> months[k] == MonthAt(12 * y + m0 - 5 + k)
    {
      JsMonthOf(y, m0 - i);
      MonthAtShift(y, m0 - i);
      var x := MonthOf(JsDate(y, m0 - i, 1));
      assert 12 * y + m0 - 5 + |months| == 12 * y + (m0 - i);
      assert x == MonthAt(12 * y + m0 - 5 + |months|);
      months := months + [x];
      i := i - 1;
    }
    assert MonthIndex(MonthOf(today)) == 12 * y + m0;
    assert forall k :: 0 <= k < 6 ==> months[k] == Window(today)[k];
    assert months == Window(today);
    WindowDistinct(today);
    labels := months;
    income := Accumulate(d.revenues, Dashboard.RecordMonth, months);
    expenses := Accumulate(d.expenses, Dashboard.RecordMonth, months);
  }

  /** The category chart of this revision covers normal expenses only. */
  method UpdateCategoryChart(d: Doc) returns (labels: seq<string>, amounts: seq<int>)
    ensures labels == Keys(TopCategories(d.expenses)) && amounts == Amounts(TopCategories(d.expenses))
    ensures |labels| == |amounts| == if |CategoryTotals(d.expenses)| < 10 then |CategoryTotals(d.expenses)| else 10
    ensures Distinct(labels)
    ensures forall i, j :: 0 <= i < j < |amounts| ==> amounts[i] >= amounts[j]
    ensures forall i :: 0 <= i < |labels| ==> amounts[i] == SumAt(d.expenses, CategoryOf, labels[i])
    ensures forall c, i :: HasCategory(d.expenses, c) && c !in labels && 0 <= i < |amounts| ==>
              amounts[i] >= SumAt(d.expenses, CategoryOf, c)
  {
    labels, amounts := TopCategoryChart(d.expenses);
    var top := TopCategories(d.expenses);
    TopCategoriesLaws(d.expenses);
    forall i | 0 <= i < |labels| ensures amounts[i] == SumAt(d.expenses, CategoryOf, labels[i]) {
      assert top[i] in top;
    }
    forall i, j | 0 <= i < j < |amounts| ensures amounts[i] >= amounts[j] {
      assert EntryAmount(top[i]) >= EntryAmount(top[j]);
    }
    forall c, i | HasCategory(d.expenses, c) && c !in labels && 0 <= i < |amounts|
      ensures amounts[i] >= SumAt(d.expenses, CategoryOf, c)
    {
      TopCategoriesLeftOut(d.expenses, c);
    }
  }
}
