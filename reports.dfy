/** The reports page (relatorios.js): a period selector that fills the two
    date inputs, and a report over the records dated between them - one
    bar per day and a table of category sums with their share of the
    total. "Now" is the parameter `today`; a date input is `None` while
    it is empty. */
module Reports {
  import opened Wrappers
  import opened Dates
  import opened Records
  import opened Aggregates
  import opened DataStorage

  const MonthPeriod := "month"
  const YearPeriod := "year"
  const QuarterPeriod := "quarter"
  const SemesterPeriod := "semester"
  const CustomPeriod := "custom"

  /** What a change of the period selector does to the date inputs. */
  datatype PeriodChange = KeepDates | SetDates(start: Date, end: Date) | TypeError

  function LastDayOf(d: Date): Date {
    Date(d.year, d.month, DaysInMonth(d.year, d.month))
  }

  /** The `len` whole months of the year of `today` that form the block
      of `len` months holding it, from the first day of the first month to
      the last day of the last: `Math.floor(month / len) * len` is the
      block's first month index. */
  function Block(today: Date, len: int): (r: (Date, Date))
    requires Valid(today) && (len == 3 || len == 6)
    ensures r.0 == Date(today.year, r.0.month, 1)
    ensures r.1 == LastDayOf(Date(today.year, r.0.month + len - 1, 1))
    ensures r.0.month in BlockStarts(len) && r.0.month <= today.month < r.0.month + len
    ensures Valid(r.0) && Valid(r.1) && NotAfter(r.0, today) && NotAfter(today, r.1)
  {
    var f := BlockFirst(today.month - 1, len);
    BlockSpan(today, f, len);
    (JsDate(today.year, f, 1), JsDate(today.year, f + len, 0))
  }

  /** The months `f + 1` to `f + len` of the year of `today`, when they
      hold its month and start a block, run from a valid first
      day to a valid last day around `today`. */
  lemma BlockSpan(today: Date, f: int, len: int)
    requires Valid(today) && 0 <= f <= today.month - 1 < f + len <= 12 && f + 1 in BlockStarts(len)
    ensures JsDate(today.year, f, 1) == Date(today.year, JsDate(today.year, f, 1).month, 1)
    ensures JsDate(today.year, f + len, 0) == LastDayOf(Date(today.year, JsDate(today.year, f, 1).month + len - 1, 1))
    ensures JsDate(today.year, f, 1).month in BlockStarts(len)
    ensures JsDate(today.year, f, 1).month <= today.month < JsDate(today.year, f, 1).month + len
    ensures Valid(JsDate(today.year, f, 1)) && Valid(JsDate(today.year, f + len, 0))
    ensures NotAfter(JsDate(today.year, f, 1), today) && NotAfter(today, JsDate(today.year, f + len, 0))
  {
    MonthSpan(today.year, f, len);
    var first := Date(today.year, f + 1, 1);
    assert first.month - 1 == f && first.month + len - 1 == f + len;
  }

  /** The months a quarter or a semester starts with. */
  function BlockStarts(len: int): set<int> {
    if len == 3 then {1, 4, 7, 10} else {1, 7}
  }

  /** `Math.floor(m0 / len) * len`: the month index that starts the block
      holding month index `m0`. */
  function BlockFirst(m0: int, len: int): (f: int)
    requires 0 <= m0 < 12 && (len == 3 || len == 6)
    ensures 0 <= f <= m0 < f + len <= 12 && f + 1 in BlockStarts(len)
  {
    if len == 3 then (m0 / 3) * 3 else (m0 / 6) * 6
  }

  /** `new Date(y, f, 1)` and `new Date(y, f + len, 0)` for months inside
      one year: the first day of month `f + 1` and the last of month `f + len`. */
  lemma MonthSpan(y: int, f: int, len: int)
    requires 0 <= f && 1 <= len && f + len <= 12
    ensures JsDate(y, f, 1) == Date(y, f + 1, 1)
    ensures JsDate(y, f + len, 0) == LastDayOf(Date(y, f + len, 1))
  {
    JsMonthInYear(y, f);
    JsMonthInYear(y, f + len - 1);
  }

  /** `new Date(y, m, 1)` and `new Date(y, m + 1, 0)` for the month of
      `today`: its first and last days, around `today`. */
  lemma MonthOfToday(today: Date)
    requires Valid(today)
    ensures JsDate(today.year, today.month - 1, 1) == Date(today.year, today.month, 1)
    ensures JsDate(today.year, today.month - 1 + 1, 0) == LastDayOf(today)
    ensures Valid(LastDayOf(today))
    ensures NotAfter(Date(today.year, today.month, 1), today) && NotAfter(today, LastDayOf(today))
  {
    var m0 := today.month - 1;
    JsMonthBounds(today.year, m0);
    assert m0 / 12 == 0 && m0 % 12 == m0;
  }

  /** `new Date(y, 0, 1)` and `new Date(y, 11, 31)`: the first and last
      days of the year of `today`, around `today`. */
  lemma YearOfToday(today: Date)
    requires Valid(today)
    ensures JsDate(today.year, 0, 1) == Date(today.year, 1, 1)
    ensures JsDate(today.year, 11, 31) == Date(today.year, 12, 31)
    ensures NotAfter(Date(today.year, 1, 1), today) && NotAfter(today, Date(today.year, 12, 31))
  {
    JsLastDayOfYear(today.year);
    JsMonthBounds(today.year, 0);
    assert 0 / 12 == 0 && 0 % 12 == 0;
    assert DaysInMonth(today.year, 12) == 31 && DaysInMonth(today.year, 1) == 31;
  }

  /** `new Date(y, m, 1)` and `new Date(y, m + 1, 0)`. */
  function MonthBounds(today: Date): (r: (Date, Date))
    requires Valid(today)
    ensures r == (Date(today.year, today.month, 1), LastDayOf(today))
  {
    MonthOfToday(today);
    (JsDate(today.year, today.month - 1, 1), JsDate(today.year, today.month - 1 + 1, 0))
  }

  /** `new Date(y, 0, 1)` and `new Date(y, 11, 31)`. */
  function YearBounds(today: Date): (r: (Date, Date))
    requires Valid(today)
    ensures r == (Date(today.year, 1, 1), Date(today.year, 12, 31))
  {
    YearOfToday(today);
    (JsDate(today.year, 0, 1), JsDate(today.year, 11, 31))
  }

  /** The bounds of the four known periods: the month, the year, the
      quarter or the semester that holds `today`, each from its first to
      its last day; no bounds for any other selector value. */
  function PeriodBounds(period: string, today: Date): (r: Option<(Date, Date)>)
    requires Valid(today)
    ensures r.Some? <==> period == MonthPeriod || period == YearPeriod || period == QuarterPeriod || period == SemesterPeriod
    ensures period == MonthPeriod ==> r == Some((Date(today.year, today.month, 1), LastDayOf(today)))
    ensures period == YearPeriod ==> r == Some((Date(today.year, 1, 1), Date(today.year, 12, 31)))
    ensures period == QuarterPeriod ==> r == Some(Block(today, 3))
    ensures period == SemesterPeriod ==> r == Some(Block(today, 6))
  {
    if period == MonthPeriod then Some(MonthBounds(today))
    else if period == YearPeriod then Some(YearBounds(today))
    else if period == QuarterPeriod then
      Some(Block(today, 3))
    else if period == SemesterPeriod then
      Some(Block(today, 6))
    else
      None
  }

  /** Every period's bounds are valid dates, start on a first day and
      hold `today`. */
  lemma PeriodHoldsToday(period: string, today: Date)
    requires Valid(today) && PeriodBounds(period, today).Some?
    ensures Valid(PeriodBounds(period, today).value.0) && Valid(PeriodBounds(period, today).value.1)
    ensures PeriodBounds(period, today).value.0.day == 1
    ensures NotAfter(PeriodBounds(period, today).value.0, today) && NotAfter(today, PeriodBounds(period, today).value.1)
  {
    if period == MonthPeriod {
      MonthOfToday(today);
    } else if period == YearPeriod {
      YearOfToday(today);
    }
  }

  /** `handlePeriodChange`: `custom` and unknown values leave the inputs
      as they are; the known periods overwrite both; it never throws. */
  function HandlePeriodChange(period: string, today: Date): (c: PeriodChange)
    requires Valid(today)
    ensures c != TypeError
    ensures period == CustomPeriod ==> c == KeepDates
    ensures c.SetDates? <==> PeriodBounds(period, today).Some?
    ensures c.SetDates? ==> (c.start, c.end) == PeriodBounds(period, today).value
  {
    if period == CustomPeriod then KeepDates
    else
      var b := PeriodBounds(period, today);
      if b.None? then KeepDates else SetDates(b.value.0, b.value.1)
  }

  // ---------------------------------------------------------------
  // Daily buckets
  // ---------------------------------------------------------------

  /** The key of a record's bucket: its `date` string as stored. */
  function RecordDate(x: Record): Date {
    x.date
  }

  /** The days `while (current <= end)` visits; none when either bound
      does not parse. */
  function Days(start: Date, end: Date): (r: seq<Date>)
    ensures Distinct(r)
    ensures forall d :: d in r <==> NotAfter(start, d) && NotAfter(d, end)
    ensures forall i, j :: 0 <= i < j < |r| ==> Precedes(r[i], r[j])
  {
    if Valid(start) && Valid(end) then
      DaysFromExactly(start, end);
      var r := DaysFrom(start, end);
      assert Distinct(r) by {
        forall i, j | 0 <= i < j < |r| ensures r[i] != r[j] {
          assert Precedes(r[i], r[j]);
        }
      }
      r
    else []
  }

  /** `groupByDate`: a `while` loop creates one bucket per day from `start`
      to `end`, then each revenue and each expense is added to the bucket
      whose key is its date, if there is one. */
  method GroupByDate(revenues: seq<Record>, expenses: seq<Record>, start: Date, end: Date)
    returns (days: seq<Date>, income: seq<int>, spent: seq<int>)
    ensures days == Days(start, end)
    ensures |income| == |days| && |spent| == |days|
    ensures forall j :: 0 <= j < |days| ==>
              income[j] == SumAt(revenues, RecordDate, days[j]) && spent[j] == SumAt(expenses, RecordDate, days[j])
  {
    days := [];
    if Valid(start) && Valid(end) {
      var current := start;
      while !Precedes(end, current)
        invariant Valid(current)
        invariant days + DaysFrom(current, end) == DaysFrom(start, end)
        decreases Ordinal(end) - Ordinal(current)
      {
        DaysFromStep(current, end);
        days := days + [current];
        current := NextDay(current);
      }
      assert days == DaysFrom(start, end);
    }
    assert days == Days(start, end);
    income := Accumulate(revenues, RecordDate, days);
    spent := Accumulate(expenses, RecordDate, days);
  }

  /** One turn of the loop: a day not after `end` heads the rest. */
  lemma DaysFromStep(cur: Date, end: Date)
    requires Valid(cur) && Valid(end) && !Precedes(end, cur)
    ensures DaysFrom(cur, end) == [cur] + DaysFrom(NextDay(cur), end)
    ensures Ordinal(end) - Ordinal(NextDay(cur)) < Ordinal(end) - Ordinal(cur)
    ensures Ordinal(NextDay(cur)) <= Ordinal(end) + 1
  {
    PrecedesIffOrdinal(end, cur);
  }

  /** Over records dated inside the period the bars add up to the totals:
      no record is dropped. */
  lemma DailySumsAddUp(s: seq<Record>, start: Date, end: Date, values: seq<int>)
    requires forall x :: x in s ==> InRange(x, start, end)
    requires |values| == |Days(start, end)|
    requires forall j :: 0 <= j < |values| ==> values[j] == SumAt(s, RecordDate, Days(start, end)[j])
    ensures Sum(values) == Total(s)
  {
    BucketsAddUp(values, s, RecordDate, Days(start, end));
  }

  // ---------------------------------------------------------------
  // The table
  // ---------------------------------------------------------------

  /** A percentage cell: `amount / total * 100` (shown with one decimal),
      the text '0', or what JavaScript prints for a division by zero. */
  datatype Percent = Ratio(amount: int, total: int) | ZeroText | NaN | Infinity | MinusInfinity

  /** `total > 0 ? (amount / total * 100).toFixed(1) : '0'`. */
  function GuardedPercent(amount: int, total: int): (p: Percent)
    ensures p.Ratio? <==> total > 0
    ensures p.Ratio? ==> p == Ratio(amount, total)
    ensures !p.Ratio? ==> p == ZeroText
  {
    if total > 0 then Ratio(amount, total) else ZeroText
  }

  datatype Row = Row(category: string, amount: int, percent: Percent)

  datatype Table = Table(totalIncome: int, totalExpenses: int, balance: int,
                         incomeRows: seq<Row>, expenseRows: seq<Row>)

  /** One row per dictionary entry, in the dictionary's order. */
  function GuardedRows(es: seq<Entry>, total: int): (rows: seq<Row>)
    ensures |rows| == |es|
    ensures forall i :: 0 <= i < |es| ==>
              rows[i].category == es[i].category && rows[i].amount == es[i].amount
              && rows[i].percent == GuardedPercent(es[i].amount, total)
  {
    seq(|es|, i requires 0 <= i < |es| => Row(es[i].category, es[i].amount, GuardedPercent(es[i].amount, total)))
  }

  /** The table `updateTable` renders. */
  function TableOf(revenues: seq<Record>, expenses: seq<Record>): Table {
    var totalIncome := Total(revenues);
    var totalExpenses := Total(expenses);
    Table(totalIncome, totalExpenses, totalIncome - totalExpenses,
          GuardedRows(CategoryTotals(revenues), totalIncome),
          GuardedRows(CategoryTotals(expenses), totalExpenses))
  }

  /** The category names of some rows. */
  function RowCategories(rows: seq<Row>): (r: seq<string>)
    ensures |r| == |rows| && forall i :: 0 <= i < |rows| ==> r[i] == rows[i].category
  {
    seq(|rows|, i requires 0 <= i < |rows| => rows[i].category)
  }

  function RowAmounts(rows: seq<Row>): (r: seq<int>)
    ensures |r| == |rows| && forall i :: 0 <= i < |rows| ==> r[i] == rows[i].amount
  {
    seq(|rows|, i requires 0 <= i < |rows| => rows[i].amount)
  }

  /** The rows list every category of the records once, each with its
      sum; the sums add up to the total, so when the total is positive the
      percentages, all over that total, add up to 100; otherwise every
      cell reads '0'. */
  lemma GuardedRowsLaws(s: seq<Record>)
    ensures var rows := GuardedRows(CategoryTotals(s), Total(s));
            Distinct(RowCategories(rows))
            && (forall c :: c in RowCategories(rows) <==> HasCategory(s, c))
            && (forall i :: 0 <= i < |rows| ==> rows[i].amount == SumAt(s, CategoryOf, rows[i].category))
            && Sum(RowAmounts(rows)) == Total(s)
            && (Total(s) > 0 ==> forall i :: 0 <= i < |rows| ==> rows[i].percent == Ratio(rows[i].amount, Total(s)))
            && (Total(s) <= 0 ==> forall i :: 0 <= i < |rows| ==> rows[i].percent == ZeroText)
  {
    var es := CategoryTotals(s);
    var rows := GuardedRows(es, Total(s));
    CategoryTotalsLaws(s);
    EntrySums(s);
    assert RowCategories(rows) == Keys(es);
    assert RowAmounts(rows) == Amounts(es);
  }

  /** The balance is income minus expenses, and both halves of the table
      obey the row laws. */
  lemma TableLaws(revenues: seq<Record>, expenses: seq<Record>)
    ensures TableOf(revenues, expenses).balance == Total(revenues) - Total(expenses)
    ensures TableOf(revenues, expenses).incomeRows == GuardedRows(CategoryTotals(revenues), Total(revenues))
    ensures Sum(RowAmounts(TableOf(revenues, expenses).incomeRows)) == TableOf(revenues, expenses).totalIncome
    ensures Sum(RowAmounts(TableOf(revenues, expenses).expenseRows)) == TableOf(revenues, expenses).totalExpenses
  {
    GuardedRowsLaws(revenues);
    GuardedRowsLaws(expenses);
  }

  /** `updateTable`: the totals by `reduce`, the dictionaries by
      `groupByCategory`, one row per entry. */
  method UpdateTable(revenues: seq<Record>, expenses: seq<Record>) returns (t: Table)
    ensures t == TableOf(revenues, expenses)
  {
    var totalIncome := Total(revenues);
    var totalExpenses := Total(expenses);
    var incomeByCategory := GroupByCategory(revenues);
    var expensesByCategory := GroupByCategory(expenses);
    t := Table(totalIncome, totalExpenses, totalIncome - totalExpenses,
               GuardedRows(incomeByCategory, totalIncome), GuardedRows(expensesByCategory, totalExpenses));
  }

  // ---------------------------------------------------------------
  // The report
  // ---------------------------------------------------------------

  datatype Report = Report(revenues: seq<Record>, expenses: seq<Record>,
                           days: seq<Date>, dailyIncome: seq<int>, dailyExpenses: seq<int>, table: Table)

  /** What a report over `[start, end]` of document `d` consists of: the
      revenues in the period, the normal then the future expenses in it,
      one bar per day and the table. */
  predicate IsReport(r: Report, d: Doc, start: Date, end: Date) {
    r.revenues == InPeriod(d.revenues, start, end)
    && r.expenses == InPeriod(d.expenses, start, end) + InPeriod(d.futureExpenses, start, end)
    && r.days == Days(start, end)
    && |r.dailyIncome| == |r.days| && |r.dailyExpenses| == |r.days|
    && (forall j :: 0 <= j < |r.days| ==>
          r.dailyIncome[j] == SumAt(r.revenues, RecordDate, r.days[j])
          && r.dailyExpenses[j] == SumAt(r.expenses, RecordDate, r.days[j]))
    && r.table == TableOf(r.revenues, r.expenses)
  }

  /** In every report the bars and the table agree: the daily income adds
      up to the income total and the daily expenses to the expense total,
      which counts future expenses. */
  lemma ReportConsistent(r: Report, d: Doc, start: Date, end: Date)
    requires IsReport(r, d, start, end)
    ensures Sum(r.dailyIncome) == r.table.totalIncome
    ensures Sum(r.dailyExpenses) == r.table.totalExpenses
    ensures r.table.totalExpenses == Total(InPeriod(d.expenses, start, end)) + Total(InPeriod(d.futureExpenses, start, end))
  {
    assert forall x :: x in r.expenses ==> x in InPeriod(d.expenses, start, end) || x in InPeriod(d.futureExpenses, start, end);
    DailySumsAddUp(r.revenues, start, end, r.dailyIncome);
    DailySumsAddUp(r.expenses, start, end, r.dailyExpenses);
    TotalAppend(InPeriod(d.expenses, start, end), InPeriod(d.futureExpenses, start, end));
  }

  /** `generateReport`: with either date input empty nothing is read and
      no report is shown; otherwise the report over the stored document. */
  method GenerateReport(st: Storage, start: Option<Date>, end: Option<Date>) returns (r: Option<Report>)
    modifies st
    ensures start.None? || end.None? ==> r.None? && st.docs == old(st.docs)
    ensures start.Some? && end.Some? ==>
              r.Some? && IsReport(r.value, old(st.Current()), start.value, end.value)
              && st.docs == old(st.AfterRead())
    ensures st.session == old(st.session) && st.legacy == old(st.legacy)
  {
    if start.None? || end.None? {
      return None;
    }
    var revenues := st.GetRevenuesByPeriod(start.value, end.value);
    var expenses := st.GetExpensesByPeriod(start.value, end.value);
    var days, income, spent := GroupByDate(revenues, expenses, start.value, end.value);
    var table := UpdateTable(revenues, expenses);
    r := Some(Report(revenues, expenses, days, income, spent, table));
  }
}
