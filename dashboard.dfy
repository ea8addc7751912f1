/** The dashboard page (js/dashboard.js): it filters the document to the
    selected period, shows the totals, the ten most recent transactions,
    one bucket per month of the period and the ten largest expense
    categories. "Now" is the parameter `today`. */
module Dashboard {
  import opened Dates
  import opened Records
  import opened Aggregates
  import opened DataStorage

  const CurrentMonthPeriod := "current-month"
  const LastMonthPeriod := "last-month"
  const CurrentYearPeriod := "current-year"

  /** The last day of the month `d` lies in. */
  function LastDayOf(d: Date): Date {
    Date(d.year, d.month, DaysInMonth(d.year, d.month))
  }

  /** `startDate` and `endDate` of `filterDataByPeriod`: the whole current
      month, the whole previous month, or the whole current year; any
      other selector value counts as the current month. */
  function FilterBounds(period: string, today: Date): (r: (Date, Date))
    requires Valid(today)
    ensures Valid(r.0) && Valid(r.1) && r.0.day == 1 && NotAfter(r.0, r.1)
    ensures period == CurrentYearPeriod ==> r == (Date(today.year, 1, 1), Date(today.year, 12, 31))
    ensures period == LastMonthPeriod ==>
              MonthIndex(MonthOf(r.0)) == MonthIndex(MonthOf(today)) - 1 && r.1 == LastDayOf(r.0)
    ensures period != CurrentYearPeriod && period != LastMonthPeriod ==>
              r == (Date(today.year, today.month, 1), LastDayOf(today))
  {
    var y, m0 := today.year, today.month - 1;
    if period == LastMonthPeriod then
      PreviousMonthBounds(today);
      (JsDate(y, m0 - 1, 1), JsDate(y, m0, 0))
    else if period == CurrentYearPeriod then
      JsLastDayOfYear(y);
      assert JsDate(y, 0, 1) == Date(y, 1, 1) by {
        JsMonthBounds(y, 0);
      }
      (JsDate(y, 0, 1), JsDate(y, 11, 31))
    else
      CurrentMonthBounds(today);
      (JsDate(y, m0, 1), JsDate(y, m0 + 1, 0))
  }

  /** `new Date(y, m - 1, 1)` and `new Date(y, m, 0)` for the month of `today`. */
  lemma CurrentMonthBounds(today: Date)
    requires Valid(today)
    ensures JsDate(today.year, today.month - 1, 1) == Date(today.year, today.month, 1)
    ensures JsDate(today.year, today.month, 0) == LastDayOf(today)
  {
    var m0 := today.month - 1;
    JsMonthBounds(today.year, m0);
    assert m0 / 12 == 0 && m0 % 12 == m0;
  }

  /** `new Date(y, m - 2, 1)` and `new Date(y, m - 1, 0)`: the first and
      last day of the month before that of `today`, even in January. */
  lemma PreviousMonthBounds(today: Date)
    requires Valid(today)
    ensures var first := JsDate(today.year, today.month - 2, 1);
            Valid(first) && first.day == 1 && MonthIndex(MonthOf(first)) == MonthIndex(MonthOf(today)) - 1
            && JsDate(today.year, today.month - 1, 0) == LastDayOf(first)
  {
    var y, m0 := today.year, today.month - 2;
    if m0 < 0 {
      assert m0 / 12 == -1 && m0 % 12 == 11;
    } else {
      assert m0 / 12 == 0 && m0 % 12 == m0;
    }
    JsMonthBounds(y, m0);
    JsMonthOf(y, m0);
    assert m0 + 1 == today.month - 1;
  }

  /** Each list cut down to the records dated in `[start, end]`, in their
      order; the three lists are filtered independently. */
  function FilterDataByPeriod(d: Doc, start: Date, end: Date): (r: Doc)
    ensures forall x :: x in r.revenues <==> x in d.revenues && InRange(x, start, end)
    ensures forall x :: x in r.expenses <==> x in d.expenses && InRange(x, start, end)
    ensures forall x :: x in r.futureExpenses <==> x in d.futureExpenses && InRange(x, start, end)
    ensures IsSubsequence(r.revenues, d.revenues) && IsSubsequence(r.expenses, d.expenses)
    ensures IsSubsequence(r.futureExpenses, d.futureExpenses)
  {
    InPeriodKeepsOrder(d.revenues, start, end);
    InPeriodKeepsOrder(d.expenses, start, end);
    InPeriodKeepsOrder(d.futureExpenses, start, end);
    Doc(InPeriod(d.revenues, start, end), InPeriod(d.expenses, start, end),
        InPeriod(d.futureExpenses, start, end))
  }

  // ---------------------------------------------------------------
  // Totals
  // ---------------------------------------------------------------

  datatype Metrics = Metrics(income: int, normalExpenses: int, futureExpenses: int, expenses: int, balance: int)

  /** The totals of `updateMetrics`: future expenses count as expenses. */
  function UpdateMetrics(d: Doc): (m: Metrics)
    ensures m.income == Total(d.revenues)
    ensures m.expenses == Total(d.expenses + d.futureExpenses)
    ensures m.balance == Total(d.revenues) - Total(d.expenses) - Total(d.futureExpenses)
  {
    TotalAppend(d.expenses, d.futureExpenses);
    var income := Total(d.revenues);
    var normal := Total(d.expenses);
    var future := Total(d.futureExpenses);
    Metrics(income, normal, future, normal + future, income - (normal + future))
  }

  /** A new expense of either kind lowers the balance by its amount, and a
      new revenue raises it by its amount. */
  lemma MetricsAfterAdd(d: Doc, which: ListName, x: Record)
    ensures UpdateMetrics(AppendTo(d, which, x)).balance
         == UpdateMetrics(d).balance + (if which == Revenues then x.amount else -x.amount)
    ensures UpdateMetrics(AppendTo(d, which, x)).expenses
         == UpdateMetrics(d).expenses + (if which == Revenues then 0 else x.amount)
  {
    AddTotal(d, which, x);
  }

  // ---------------------------------------------------------------
  // Recent transactions
  // ---------------------------------------------------------------

  const Income := "income"
  const Expense := "expense"
  const FutureExpense := "future-expense"

  /** `s.map(x => ({ ...x, type: tag }))`: the tag replaces the `type` field. */
  function Tag(s: seq<Record>, tag: string): (r: seq<Record>)
    ensures |r| == |s| && forall i :: 0 <= i < |s| ==> r[i] == s[i].(kind := tag)
  {
    seq(|s|, i requires 0 <= i < |s| => s[i].(kind := tag))
  }

  /** `new Date(x.date)` as a number of days; an unparsable date is put
      at 0. */
  function DateKey(x: Record): int {
    if Valid(x.date) then Ordinal(x.date) else 0
  }

  /** The three lists, each tagged with its name, one after the other. */
  function AllTagged(d: Doc): seq<Record> {
    Tag(d.revenues, Income) + Tag(d.expenses, Expense) + Tag(d.futureExpenses, FutureExpense)
  }

  /** Everything tagged, newest first, cut to ten. */
  function RecentTransactions(d: Doc): seq<Record> {
    Take(SortDesc(AllTagged(d), DateKey), 10)
  }

  /** A record of one of the lists, tagged with that list's name. */
  predicate FromList(t: Record, d: Doc) {
    (t.kind == Income && exists x :: x in d.revenues && t == x.(kind := Income))
    || (t.kind == Expense && exists x :: x in d.expenses && t == x.(kind := Expense))
    || (t.kind == FutureExpense && exists x :: x in d.futureExpenses && t == x.(kind := FutureExpense))
  }

  /** The tagged items are exactly the records of the lists, each tagged by
      its own list. */
  lemma AllTaggedExactly(d: Doc)
    ensures forall t :: t in AllTagged(d) <==> FromList(t, d)
  {
    TagMembers(d.revenues, Income);
    TagMembers(d.expenses, Expense);
    TagMembers(d.futureExpenses, FutureExpense);
    var r, e, f := Tag(d.revenues, Income), Tag(d.expenses, Expense), Tag(d.futureExpenses, FutureExpense);
    assert AllTagged(d) == r + e + f;
    assert forall t :: t in AllTagged(d) <==> t in r || t in e || t in f;
  }

  /** The tagged copies of one list are its records with the tag set. */
  lemma TagMembers(s: seq<Record>, tag: string)
    ensures forall t: Record :: t in Tag(s, tag) <==> t.kind == tag && exists x :: x in s && t == x.(kind := tag)
  {
    var r := Tag(s, tag);
    forall t: Record | t in r ensures t.kind == tag && exists x :: x in s && t == x.(kind := tag) {
      var j :| 0 <= j < |r| && r[j] == t;
      assert s[j] in s && t == s[j].(kind := tag);
    }
    forall t: Record | t.kind == tag && exists x :: x in s && t == x.(kind := tag) ensures t in r {
      var x :| x in s && t == x.(kind := tag);
      var j :| 0 <= j < |s| && s[j] == x;
      assert r[j] == t;
    }
  }

  /** Ten transactions, or all of them when there are fewer; newest first;
      each one a record of the list its tag names; and none left out is
      newer than any shown. */
  lemma RecentTransactionsLaws(d: Doc)
    ensures |RecentTransactions(d)| == if |d.revenues| + |d.expenses| + |d.futureExpenses| < 10
                                       then |d.revenues| + |d.expenses| + |d.futureExpenses| else 10
    ensures NonIncreasing(RecentTransactions(d), DateKey)
    ensures forall t :: t in RecentTransactions(d) ==> FromList(t, d)
    ensures forall t, i :: (FromList(t, d) && t !in RecentTransactions(d) && 0 <= i < |RecentTransactions(d)|)
              ==> DateKey(RecentTransactions(d)[i]) >= DateKey(t)
  {
    SortedCutLaws(AllTagged(d), DateKey, 10);
    AllTaggedExactly(d);
  }

  // ---------------------------------------------------------------
  // Month buckets
  // ---------------------------------------------------------------

  /** The bucket a record's date falls in. */
  function RecordMonth(x: Record): MonthKey {
    MonthOf(x.date)
  }

  /** The buckets `groupFilteredDataByMonth` creates, in creation order:
      the previous month, the twelve months of the year, or the current month. */
  function MonthKeys(period: string, today: Date): (ks: seq<MonthKey>)
    requires Valid(today)
    ensures period == CurrentYearPeriod ==>
              |ks| == 12 && forall i :: 0 <= i < 12 ==> ks[i] == Month(today.year, i + 1)
    ensures period == LastMonthPeriod ==>
              |ks| == 1 && ks[0].Month? && MonthIndex(ks[0]) == MonthIndex(MonthOf(today)) - 1
    ensures period != CurrentYearPeriod && period != LastMonthPeriod ==> ks == [MonthOf(today)]
    ensures Distinct(ks)
  {
    var y, m0 := today.year, today.month - 1;
    if period == LastMonthPeriod then
      JsMonthOf(y, m0 - 1);
      [MonthOf(JsDate(y, m0 - 1, 1))]
    else if period == CurrentYearPeriod then
      seq(12, i requires 0 <= i < 12 => Month(y, i + 1))
    else
      JsMonthOf(y, m0);
      [MonthOf(JsDate(y, m0, 1))]
  }

  /** Creates the buckets of the period, then adds each record of the
      three lists to the bucket of its month, if there is one. */
  method GroupFilteredDataByMonth(d: Doc, period: string, today: Date)
    returns (labels: seq<MonthKey>, income: seq<int>, normalExpenses: seq<int>, futureExpenses: seq<int>)
    requires Valid(today)
    ensures labels == MonthKeys(period, today)
    ensures |income| == |labels| && |normalExpenses| == |labels| && |futureExpenses| == |labels|
    ensures forall j :: 0 <= j < |labels| ==>
              income[j] == SumAt(d.revenues, RecordMonth, labels[j])
              && normalExpenses[j] == SumAt(d.expenses, RecordMonth, labels[j])
              && futureExpenses[j] == SumAt(d.futureExpenses, RecordMonth, labels[j])
  {
    var y, m0 := today.year, today.month - 1;
    var months: seq<MonthKey>;
    if period == LastMonthPeriod {
      months := [MonthOf(JsDate(y, m0 - 1, 1))];
    } else if period == CurrentYearPeriod {
      months := [];
      var i := 0;
      while i < 12
        invariant 0 <= i <= 12 && |months| == i
        invariant forall k :: 0 <= k < i ==> months[k] == Month(y, k + 1)
      {
        JsMonthOf(y, i);
        months := months + [MonthOf(JsDate(y, i, 1))];
        i := i + 1;
      }
    } else {
      months := [MonthOf(JsDate(y, m0, 1))];
    }
    labels := months;
    income := Accumulate(d.revenues, RecordMonth, months);
    normalExpenses := Accumulate(d.expenses, RecordMonth, months);
    futureExpenses := Accumulate(d.futureExpenses, RecordMonth, months);
  }

  /** Every date inside the bounds of a period has a bucket of that period. */
  lemma InBoundsHasBucket(period: string, today: Date, x: Record)
    requires Valid(today)
    requires InRange(x, FilterBounds(period, today).0, FilterBounds(period, today).1)
    ensures RecordMonth(x) in MonthKeys(period, today)
  {
    var ks := MonthKeys(period, today);
    if period == CurrentYearPeriod {
      assert ks[x.date.month - 1] == RecordMonth(x);
    } else if period == LastMonthPeriod {
      var start := FilterBounds(period, today).0;
      assert RecordMonth(x) == MonthOf(start);
      assert MonthOf(start) == ks[0] by {
        JsMonthBounds(today.year, today.month - 2);
      }
    }
  }

  /** On the filtered data the chart and the totals agree: the buckets of
      each series add up to the total of its list. */
  lemma ChartMatchesMetrics(d: Doc, period: string, today: Date,
                            income: seq<int>, normalExpenses: seq<int>, futureExpenses: seq<int>)
    requires Valid(today)
    requires |income| == |MonthKeys(period, today)| && |normalExpenses| == |income| && |futureExpenses| == |income|
    requires forall j :: 0 <= j < |income| ==>
               var f := FilterDataByPeriod(d, FilterBounds(period, today).0, FilterBounds(period, today).1);
               income[j] == SumAt(f.revenues, RecordMonth, MonthKeys(period, today)[j])
               && normalExpenses[j] == SumAt(f.expenses, RecordMonth, MonthKeys(period, today)[j])
               && futureExpenses[j] == SumAt(f.futureExpenses, RecordMonth, MonthKeys(period, today)[j])
    ensures var m := UpdateMetrics(FilterDataByPeriod(d, FilterBounds(period, today).0, FilterBounds(period, today).1));
            Sum(income) == m.income && Sum(normalExpenses) + Sum(futureExpenses) == m.expenses
  {
    var (start, end) := FilterBounds(period, today);
    var f := FilterDataByPeriod(d, start, end);
    var ks := MonthKeys(period, today);
    forall x | x in f.revenues + f.expenses + f.futureExpenses ensures RecordMonth(x) in ks {
      InBoundsHasBucket(period, today, x);
    }
    BucketsAddUp(income, f.revenues, RecordMonth, ks);
    BucketsAddUp(normalExpenses, f.expenses, RecordMonth, ks);
    BucketsAddUp(futureExpenses, f.futureExpenses, RecordMonth, ks);
    TotalAppend(f.expenses, f.futureExpenses);
  }

  // ---------------------------------------------------------------
  // Category chart
  // ---------------------------------------------------------------

  /** The category chart is fed normal and future expenses together. */
  method UpdateCategoryChart(d: Doc) returns (labels: seq<string>, amounts: seq<int>)
    ensures labels == Keys(TopCategories(d.expenses + d.futureExpenses))
            && amounts == Amounts(TopCategories(d.expenses + d.futureExpenses))
    ensures |labels| == |amounts| == if |CategoryTotals(d.expenses + d.futureExpenses)| < 10
                                      then |CategoryTotals(d.expenses + d.futureExpenses)| else 10
    ensures Distinct(labels)
    ensures forall i, j :: 0 <= i < j < |amounts| ==> amounts[i] >= amounts[j]
    ensures forall i :: 0 <= i < |labels| ==>
              amounts[i] == SumAt(d.expenses, CategoryOf, labels[i]) + SumAt(d.futureExpenses, CategoryOf, labels[i])
    ensures forall c, i :: HasCategory(d.expenses + d.futureExpenses, c) && c !in labels && 0 <= i < |amounts| ==>
              amounts[i] >= SumAt(d.expenses, CategoryOf, c) + SumAt(d.futureExpenses, CategoryOf, c)
  {
    labels, amounts := TopCategoryChart(d.expenses + d.futureExpenses);
    var top := TopCategories(d.expenses + d.futureExpenses);
    TopCategoriesLaws(d.expenses + d.futureExpenses);
    forall i | 0 <= i < |labels|
      ensures amounts[i] == SumAt(d.expenses, CategoryOf, labels[i]) + SumAt(d.futureExpenses, CategoryOf, labels[i])
    {
      assert top[i] in top;
      SumAtAppend(d.expenses, d.futureExpenses, CategoryOf, labels[i]);
    }
    forall i, j | 0 <= i < j < |amounts| ensures amounts[i] >= amounts[j] {
      assert EntryAmount(top[i]) >= EntryAmount(top[j]);
    }
    forall c, i | HasCategory(d.expenses + d.futureExpenses, c) && c !in labels && 0 <= i < |amounts|
      ensures amounts[i] >= SumAt(d.expenses, CategoryOf, c) + SumAt(d.futureExpenses, CategoryOf, c)
    {
      TopCategoriesLeftOut(d.expenses + d.futureExpenses, c);
      SumAtAppend(d.expenses, d.futureExpenses, CategoryOf, c);
    }
  }
}
